/** Loopback addresses: kept where possible, otherwise found by hashed, cyclic probing. */
module HostAllocation {
  import opened Util
  import opened HostNames

  const PREFIX := "127.77."
  const SLOTS: nat := 65534

  // ---------- Slots ----------

  /** Exclusive or of the lowest `bits` bits. */
  function Xor(a: nat, b: nat, bits: nat): nat {
    if bits == 0 then 0
    else 2 * Xor(a / 2, b / 2, bits - 1) + (if a % 2 == b % 2 then 0 else 1)
  }

  /** 32-bit FNV-1a over the bytes of an ASCII name, with wrapping multiplication. */
  function Fnv1a32(text: string): nat {
    if text == [] then 0x811c_9dc5
    else
      Xor(Fnv1a32(text[..|text| - 1]), text[|text| - 1] as int, 32) * 0x0100_0193 % 0x1_0000_0000
  }

  /** The first slot tried for a name. */
  function HashSlot(name: string): (slot: nat)
    ensures 1 <= slot <= SLOTS
  {
    1 + Fnv1a32(name) % SLOTS
  }

  function NextSlot(slot: nat): nat {
    slot % SLOTS + 1
  }

  /** The slot `k` places after `start` in cyclic order. */
  function SlotAfter(start: nat, k: nat): (slot: nat)
    requires 1 <= start <= SLOTS
    ensures 1 <= slot <= SLOTS
  {
    1 + (start - 1 + k) % SLOTS
  }

  lemma SlotAfterSteps(start: nat, k: nat)
    requires 1 <= start <= SLOTS
    ensures SlotAfter(start, 0) == start
    ensures NextSlot(SlotAfter(start, k)) == SlotAfter(start, k + 1)
  {
  }

  lemma SlotsDiffer(start: nat, j: nat, k: nat)
    requires 1 <= start <= SLOTS && j < k < SLOTS
    ensures SlotAfter(start, j) != SlotAfter(start, k)
  {
  }

  function SlotAddress(slot: nat): string {
    PREFIX + Decimal(slot / 256) + "." + Decimal(slot % 256)
  }

  /** The slot is the number that the last two parts of its address spell. */
  lemma SlotAddressParts(a: nat, b: nat)
    requires b < 256
    ensures SlotAddress(256 * a + b) == "127.77." + Decimal(a) + "." + Decimal(b)
  {
    assert (256 * a + b) / 256 == a && (256 * a + b) % 256 == b;
  }

  lemma SlotAddressInjective(m: nat, n: nat)
    requires SlotAddress(m) == SlotAddress(n)
    ensures m == n
  {
    var am, an := Decimal(m / 256), Decimal(n / 256);
    var xm, xn := Decimal(m % 256), Decimal(n % 256);
    assert SlotAddress(m)[|PREFIX|..] == am + ['.'] + xm;
    assert SlotAddress(n)[|PREFIX|..] == an + ['.'] + xn;
    SeparatorSplits(am, xm, an, xn, '.');
    DecimalInjective(m / 256, n / 256);
    DecimalInjective(m % 256, n % 256);
  }

  /** The addresses tried for a name, in order. */
  type Probes = (string, nat) -> string

  const LOOPBACK: Probes := (name: string, k: nat) => SlotAddress(SlotAfter(HashSlot(name), k))

  /** The addresses tried are those of the slots 1 to 65534 in cyclic order, from the hash of the name on. */
  lemma ProbesInCyclicOrder(name: string, k: nat)
    ensures LOOPBACK(name, k) == SlotAddress(1 + (Fnv1a32(name) % 65534 + k) % 65534)
  {
    assert HashSlot(name) - 1 == Fnv1a32(name) % 65534;
  }

  // ---------- A free slot exists ----------

  function FirstOf(f: nat -> string, n: nat): set<string> {
    if n == 0 then {} else FirstOf(f, n - 1) + {f(n - 1)}
  }

  lemma {:induction false} FirstOfAre(f: nat -> string, n: nat, a: string)
    requires a in FirstOf(f, n)
    ensures exists k :: 0 <= k < n && a == f(k)
  {
    if a != f(n - 1) {
      FirstOfAre(f, n - 1, a);
    }
  }

  lemma {:induction false} FirstOfCount(f: nat -> string, n: nat)
    requires forall j, k :: 0 <= j < k < n ==> f(j) != f(k)
    ensures |FirstOf(f, n)| == n
  {
    if n > 0 {
      FirstOfCount(f, n - 1);
      if f(n - 1) in FirstOf(f, n - 1) {
        FirstOfAre(f, n - 1, f(n - 1));
      }
    }
  }

  lemma {:induction false} FirstOfWithin(f: nat -> string, n: nat, used: set<string>)
    requires forall k :: 0 <= k < n ==> f(k) in used
    ensures FirstOf(f, n) <= used
  {
    if n > 0 {
      FirstOfWithin(f, n - 1, used);
    }
  }

  lemma ProbesDiffer(name: string, j: nat, k: nat)
    requires j < k < SLOTS
    ensures LOOPBACK(name, j) != LOOPBACK(name, k)
  {
    SlotsDiffer(HashSlot(name), j, k);
    if LOOPBACK(name, j) == LOOPBACK(name, k) {
      SlotAddressInjective(SlotAfter(HashSlot(name), j), SlotAfter(HashSlot(name), k));
    }
  }

  lemma AllSlotsUsed(name: string, used: set<string>)
    requires forall k :: 0 <= k < SLOTS ==> LOOPBACK(name, k) in used
    ensures SLOTS <= |used|
  {
    var f: nat -> string := (k: nat) => LOOPBACK(name, k);
    forall j, k | 0 <= j < k < SLOTS ensures f(j) != f(k) {
      ProbesDiffer(name, j, k);
    }
    FirstOfCount(f, SLOTS);
    FirstOfWithin(f, SLOTS, used);
    SubsetCount(FirstOf(f, SLOTS), used);
  }

  /** Fewer used addresses than slots leave a free one in every full turn. */
  lemma SomeSlotIsFree(name: string, used: set<string>)
    requires |used| < SLOTS
    ensures exists k :: 0 <= k < SLOTS && LOOPBACK(name, k) !in used
  {
    if forall k :: 0 <= k < SLOTS ==> LOOPBACK(name, k) in used {
      AllSlotsUsed(name, used);
    }
  }

  lemma {:induction false} FirstOfHas(f: nat -> string, n: nat, k: nat)
    requires k < n
    ensures f(k) in FirstOf(f, n)
  {
    if k < n - 1 {
      FirstOfHas(f, n - 1, k);
    }
  }

  /** How many addresses are tried before the first free one, from the `from`-th on. */
  ghost function Tries(probes: Probes, name: string, from: nat, used: set<string>): (k: nat)
    requires exists j :: from <= j < SLOTS && probes(name, j) !in used
    ensures from <= k < SLOTS && probes(name, k) !in used
    ensures forall j :: from <= j < k ==> probes(name, j) in used
    decreases SLOTS - from
  {
    if probes(name, from) in used then Tries(probes, name, from + 1, used) else from
  }

  // ---------- What an allocation is ----------

  function Elements(names: seq<string>): set<string> {
    set n | n in names
  }

  function Values(m: map<string, string>): set<string> {
    set n | n in m :: m[n]
  }

  predicate Usable(ip: string) {
    PREFIX <= ip
  }

  ghost predicate SlotIp(ip: string) {
    exists slot: nat :: 1 <= slot <= SLOTS && ip == SlotAddress(slot)
  }

  /** The slot addresses that are taken; an earlier address need not be one. */
  ghost function SlotsIn(m: map<string, string>): set<string> {
    set ip | ip in Values(m) && SlotIp(ip)
  }

  /** First pass: names in order keep their earlier address unless a name before them took it. */
  function Kept(names: seq<string>, existing: map<string, string>): map<string, string> {
    if names == [] then map[]
    else
      var before := Kept(names[..|names| - 1], existing);
      var name := names[|names| - 1];
      if name in existing && Usable(existing[name]) && existing[name] !in Values(before)
      then before[name := existing[name]] else before
  }

  /** The first address tried for `name` that the values of `before` leave free. */
  ghost predicate FirstFree(probes: Probes, before: map<string, string>, name: string, ip: string) {
    exists k :: 0 <= k < SLOTS && ip == probes(name, k) && probes(name, k) !in Values(before)
      && forall j :: 0 <= j < k ==> probes(name, j) in Values(before)
  }

  /** Second pass: the remaining names, in order, each take the first free address. */
  ghost predicate Filled(probes: Probes, kept: map<string, string>, names: seq<string>, result: map<string, string>)
    decreases |names|
  {
    if names == [] then result == kept
    else
      var name := names[|names| - 1];
      if name in kept then Filled(probes, kept, names[..|names| - 1], result)
      else
        && name in result
        && var before := result - {name};
           Filled(probes, kept, names[..|names| - 1], before) && FirstFree(probes, before, name, result[name])
  }

  /** What `allocate` returns for these hosts and this history. */
  ghost predicate IsAllocation(hosts: seq<string>, existing: map<string, string>, result: map<string, string>) {
    var names := SortedNames(hosts);
    Filled(LOOPBACK, Kept(names, existing), names, result)
  }

  // ---------- The algorithm ----------

  lemma {:induction false} KeptFacts(names: seq<string>, existing: map<string, string>)
    ensures var m := Kept(names, existing);
            && (forall n :: n in m ==> n in names && n in existing && m[n] == existing[n] && Usable(m[n]))
            && Injective(m)
  {
    if names != [] {
      KeptFacts(names[..|names| - 1], existing);
    }
  }

  predicate Injective(m: map<string, string>) {
    forall a, b :: a in m && b in m && m[a] == m[b] ==> a == b
  }

  lemma ValuesCount(m: map<string, string>)
    ensures |Values(m)| <= |m.Keys|
    decreases |m.Keys|
  {
    if m.Keys != {} {
      var n :| n in m;
      var rest := m - {n};
      assert rest.Keys == m.Keys - {n};
      ValuesCount(rest);
      assert Values(m) == Values(rest) + {m[n]} by {
        forall v | v in Values(m) ensures v in Values(rest) + {m[n]} {
          var a :| a in m && m[a] == v;
          if a != n {
            assert a in rest && rest[a] == v;
          }
        }
      }
    }
  }

  lemma InjectiveCount(m: map<string, string>)
    requires Injective(m)
    ensures |Values(m)| == |m.Keys|
    decreases |m.Keys|
  {
    if m.Keys != {} {
      var n :| n in m;
      var rest := m - {n};
      assert rest.Keys == m.Keys - {n};
      InjectiveCount(rest);
      assert m == rest[n := m[n]];
      OneMoreValue(rest, n, m[n]);
    } else {
      assert Values(m) == {};
    }
  }

  lemma OneMoreValue(before: map<string, string>, name: string, ip: string)
    requires name !in before
    ensures Values(before[name := ip]) == Values(before) + {ip}
  {
    var m := before[name := ip];
    assert name in m && m[name] == ip;
    forall v | v in Values(before) ensures v in Values(m) {
      var n :| n in before && before[n] == v;
      assert n in m && m[n] == v;
    }
  }

  lemma {:induction false} DistinctCount(names: seq<string>)
    requires Distinct(names)
    ensures |Elements(names)| == |names|
  {
    if names != [] {
      var before := names[..|names| - 1];
      DistinctCount(before);
      assert Elements(names) == Elements(before) + {names[|names| - 1]};
    } else {
      assert Elements(names) == {};
    }
  }

  // ---------- When there is an allocation ----------

  /** How many of the names have no kept address. */
  function Newcomers(names: seq<string>, kept: map<string, string>): nat {
    if names == [] then 0
    else Newcomers(names[..|names| - 1], kept) + if names[|names| - 1] in kept then 0 else 1
  }

  /** The names without an earlier address to keep, and the kept addresses that are slots, are no more than the slots. */
  ghost predicate HasRoom(names: seq<string>, kept: map<string, string>) {
    Newcomers(names, kept) + |SlotsIn(kept)| <= SLOTS
  }

  lemma AtMostFirst(ips: set<string>, f: nat -> string, n: nat)
    requires forall j, k :: 0 <= j < k < n ==> f(j) != f(k)
    requires forall ip :: ip in ips ==> exists k: nat :: k < n && ip == f(k)
    ensures |ips| <= n
  {
    FirstOfCount(f, n);
    forall ip | ip in ips ensures ip in FirstOf(f, n) {
      var k: nat :| k < n && ip == f(k);
      FirstOfHas(f, n, k);
    }
    SubsetCount(ips, FirstOf(f, n));
  }

  lemma SlotsAreFew(m: map<string, string>)
    ensures |SlotsIn(m)| <= SLOTS
  {
    var f: nat -> string := (k: nat) => SlotAddress(k + 1);
    forall j, k | 0 <= j < k < SLOTS ensures f(j) != f(k) {
      if f(j) == f(k) {
        SlotAddressInjective(j + 1, k + 1);
      }
    }
    forall ip | ip in SlotsIn(m) ensures exists k: nat :: k < SLOTS && ip == f(k) {
      var slot: nat :| 1 <= slot <= SLOTS && ip == SlotAddress(slot);
      assert ip == f(slot - 1);
    }
    AtMostFirst(SlotsIn(m), f, SLOTS);
  }

  lemma ProbeIsSlot(name: string, k: nat)
    ensures SlotIp(LOOPBACK(name, k))
  {
    assert LOOPBACK(name, k) == SlotAddress(SlotAfter(HashSlot(name), k));
  }

  lemma OneMoreSlot(before: map<string, string>, name: string, ip: string)
    requires name !in before && ip !in Values(before) && SlotIp(ip)
    ensures |SlotsIn(before[name := ip])| == |SlotsIn(before)| + 1
  {
    OneMoreValue(before, name, ip);
    assert SlotsIn(before[name := ip]) == SlotsIn(before) + {ip};
  }

  lemma {:induction false} NewcomersGrow(names: seq<string>, kept: map<string, string>, i: nat)
    requires i <= |names|
    ensures Newcomers(names[..i], kept) <= Newcomers(names, kept)
  {
    if i < |names| {
      var shorter := names[..|names| - 1];
      NewcomersGrow(shorter, kept, i);
      assert shorter[..i] == names[..i];
    } else {
      assert names[..i] == names;
    }
  }

  lemma FewerNewcomers(names: seq<string>, kept: map<string, string>, i: nat)
    requires i < |names| && names[i] !in kept
    ensures Newcomers(names[..i], kept) < Newcomers(names, kept)
  {
    NewcomersGrow(names, kept, i + 1);
    assert names[..i + 1][..i] == names[..i];
  }

  lemma CountWithout(all: set<string>, name: string, keys: set<string>)
    requires name !in all
    ensures |(all + {name}) - keys| == |all - keys| + if name in keys then 0 else 1
  {
    if name in keys {
      assert (all + {name}) - keys == all - keys;
    } else {
      assert (all + {name}) - keys == (all - keys) + {name};
    }
  }

  lemma LastElement(names: seq<string>)
    requires Distinct(names) && names != []
    ensures Elements(names) == Elements(names[..|names| - 1]) + {names[|names| - 1]}
    ensures names[|names| - 1] !in Elements(names[..|names| - 1])
  {
  }

  lemma {:induction false} NewcomersAre(names: seq<string>, kept: map<string, string>)
    requires Distinct(names)
    ensures Newcomers(names, kept) == |Elements(names) - kept.Keys|
  {
    if names == [] {
      assert Elements(names) - kept.Keys == {};
    } else {
      NewcomersAre(names[..|names| - 1], kept);
      LastElement(names);
      CountWithout(Elements(names[..|names| - 1]), names[|names| - 1], kept.Keys);
    }
  }

  /** Each name without a kept address takes exactly one more slot. */
  lemma {:induction false} FillingCounts(names: seq<string>, kept: map<string, string>, result: map<string, string>)
    requires Filled(LOOPBACK, kept, names, result)
    ensures |SlotsIn(result)| == |SlotsIn(kept)| + Newcomers(names, kept)
    decreases |names|
  {
    if names != [] {
      var name, shorter := names[|names| - 1], names[..|names| - 1];
      if name in kept {
        FillingCounts(shorter, kept, result);
      } else {
        LastTakesSlot(names, kept, result);
        FillingCounts(shorter, kept, result - {name});
      }
    }
  }

  lemma LastTakesSlot(names: seq<string>, kept: map<string, string>, result: map<string, string>)
    requires Filled(LOOPBACK, kept, names, result) && names != [] && names[|names| - 1] !in kept
    ensures |SlotsIn(result)| == |SlotsIn(result - {names[|names| - 1]})| + 1
  {
    var name := names[|names| - 1];
    var before := result - {name};
    var k :| 0 <= k < SLOTS && result[name] == LOOPBACK(name, k) && LOOPBACK(name, k) !in Values(before);
    ProbeIsSlot(name, k);
    OneMoreSlot(before, name, result[name]);
    assert before[name := result[name]] == result;
  }

  /** A name still to come leaves a slot free. */
  lemma RoomIsLeft(names: seq<string>, i: nat, kept: map<string, string>, before: map<string, string>)
    requires HasRoom(names, kept) && i < |names|
    requires FilledTo(names, kept, i, before) && names[i] !in before
    ensures |SlotsIn(before)| < SLOTS
  {
    FillingCounts(names[..i], kept, before);
    FewerNewcomers(names, kept, i);
  }

  lemma AddressIsFree(name: string, taken: map<string, string>)
    requires |SlotsIn(taken)| < SLOTS
    ensures exists k :: 0 <= k < SLOTS && LOOPBACK(name, k) !in Values(taken)
  {
    SomeSlotIsFree(name, SlotsIn(taken));
    var k: nat :| 0 <= k < SLOTS && LOOPBACK(name, k) !in SlotsIn(taken);
    ProbeIsSlot(name, k);
  }

  lemma CountParts(all: set<string>, keys: set<string>)
    requires keys <= all
    ensures |all| == |all - keys| + |keys|
  {
    assert all == (all - keys) + keys;
  }

  lemma FewNamesHaveRoom(names: seq<string>, kept: map<string, string>)
    requires Distinct(names) && |names| <= SLOTS && kept.Keys <= Elements(names)
    ensures HasRoom(names, kept)
  {
    ValuesCount(kept);
    DistinctCount(names);
    NewcomersAre(names, kept);
    SubsetCount(SlotsIn(kept), Values(kept));
    CountParts(Elements(names), kept.Keys);
  }

  /** At most 65534 names have room under every history. */
  lemma FewHostsHaveRoom(hosts: seq<string>, existing: map<string, string>)
    requires |SortedNames(hosts)| <= SLOTS
    ensures HasRoom(SortedNames(hosts), Kept(SortedNames(hosts), existing))
  {
    SortedNamesAreNames(hosts);
    KeptFacts(SortedNames(hosts), existing);
    FewNamesHaveRoom(SortedNames(hosts), Kept(SortedNames(hosts), existing));
  }

  /** There is an allocation, and so `allocate` ends, exactly when there is room. */
  lemma AllocationExistsExactly(hosts: seq<string>, existing: map<string, string>)
    ensures (exists result :: IsAllocation(hosts, existing, result)) <==>
            HasRoom(SortedNames(hosts), Kept(SortedNames(hosts), existing))
  {
    var names := SortedNames(hosts);
    if HasRoom(names, Kept(names, existing)) {
      var result := AllocationExists(hosts, existing);
    }
    forall result | IsAllocation(hosts, existing, result) ensures HasRoom(names, Kept(names, existing)) {
      SortedNamesAreNames(hosts);
      KeptFacts(names, existing);
      FillingCounts(names, Kept(names, existing), result);
      SlotsAreFew(result);
    }
  }

  /** Names without any history fit exactly when they are no more than the slots. */
  lemma NewNamesFitExactly(hosts: seq<string>)
    ensures (exists result :: IsAllocation(hosts, map[], result)) <==> |SortedNames(hosts)| <= SLOTS
  {
    var names := SortedNames(hosts);
    var kept := Kept(names, map[]);
    AllocationExistsExactly(hosts, map[]);
    KeptFacts(names, map[]);
    SortedNamesAreNames(hosts);
    DistinctCount(names);
    NewcomersAre(names, kept);
    assert Elements(names) - kept.Keys == Elements(names) && SlotsIn(kept) == {};
  }

  // ---------- The algorithm, second pass ----------

  /** `allocate` terminates whenever there is an allocation. */
  method Allocate(hosts: seq<string>, existing: map<string, string>) returns (result: map<string, string>)
    requires HasRoom(SortedNames(hosts), Kept(SortedNames(hosts), existing))
    ensures IsAllocation(hosts, existing, result)
    // Which names: those of the hosts in normal form that are neither empty, nor localhost, nor too long, nor
    // four groups of one to three digits, and whose labels hold only letters, digits, hyphens and underscores,
    // begin with no hyphen, are not empty and are no longer than 63.
    ensures forall n :: n in result ==> exists h :: h in hosts && NormalizeHostname(h) == n
    ensures forall h :: h in hosts ==>
              var n := NormalizeHostname(h);
              n in result <==>
                && n != "" && n != "localhost" && |n| <= 253
                && n[0] != '-' && n[0] != '.' && n[|n| - 1] != '.'
                && (forall i :: 0 <= i < |n| ==>
                      'a' <= n[i] <= 'z' || '0' <= n[i] <= '9' || n[i] == '-' || n[i] == '_' || n[i] == '.')
                && (forall i, j :: 0 <= i && i + 1 == j && j < |n| && n[i] == '.' ==> n[j] != '-' && n[j] != '.')
                && (forall i, j :: 0 <= i && i + 64 == j && j <= |n| ==> '.' in n[i..j])
                && !(&& multiset(n)['.'] == 3
                     && (forall i :: 0 <= i < |n| ==> '0' <= n[i] <= '9' || n[i] == '.')
                     && (forall i, j :: 0 <= i && i + 4 == j && j <= |n| ==> '.' in n[i..j]))
  {
    result := Assign(hosts, existing);
    forall h | h in hosts {
      HostIsAllocated(hosts, existing, result, h);
    }
  }

  /** The two passes over the names in order. */
  method Assign(hosts: seq<string>, existing: map<string, string>) returns (result: map<string, string>)
    requires HasRoom(SortedNames(hosts), Kept(SortedNames(hosts), existing))
    ensures IsAllocation(hosts, existing, result)
    ensures forall n :: n in result ==> exists h :: h in hosts && NormalizeHostname(h) == n
  {
    var names := SortedNames(hosts);
    SortedNamesAreNames(hosts);
    result := KeepAddresses(names, existing);
    KeptFacts(names, existing);
    result := FillRest(names, result);
    forall n | n in result {
      AllocatedName(hosts, existing, result, n);
    }
  }

  /** Every name without a kept address takes the first free slot, in order. */
  method FillRest(names: seq<string>, kept: map<string, string>) returns (result: map<string, string>)
    requires Distinct(names) && HasRoom(names, kept)
    ensures Filled(LOOPBACK, kept, names, result)
  {
    result := kept;
    var i := 0;
    NothingFilled(names, kept);
    while i < |names|
      invariant 0 <= i <= |names|
      invariant FilledTo(names, kept, i, result)
    {
      result := FillNext(names, i, kept, result);
      i := i + 1;
    }
    assert names[..i] == names;
  }

  /** The first `i` names have their addresses, and no other name has one that was not kept. */
  ghost predicate FilledTo(names: seq<string>, kept: map<string, string>, i: nat, result: map<string, string>) {
    i <= |names| && result.Keys == kept.Keys + Elements(names[..i]) && Filled(LOOPBACK, kept, names[..i], result)
  }

  method FillNext(names: seq<string>, i: nat, kept: map<string, string>, before: map<string, string>)
    returns (result: map<string, string>)
    requires Distinct(names) && HasRoom(names, kept) && i < |names|
    requires FilledTo(names, kept, i, before)
    ensures FilledTo(names, kept, i + 1, result)
  {
    if names[i] !in before {
      RoomIsLeft(names, i, kept, before);
      var ip := ProbeAddress(names[i], before);
      result := before[names[i] := ip];
      FilledNew(names, i, kept, before, ip);
    } else {
      result := before;
      FilledOld(names, i, kept, before);
    }
  }

  lemma FilledNew(names: seq<string>, i: nat, kept: map<string, string>, before: map<string, string>, ip: string)
    requires Distinct(names) && i < |names| && FilledTo(names, kept, i, before) && names[i] !in before
    requires FirstFree(LOOPBACK, before, names[i], ip)
    ensures FilledTo(names, kept, i + 1, before[names[i] := ip])
  {
    PrefixGrows(names, i);
    FilledOne(LOOPBACK, kept, names[..i], before, names[i], ip);
  }

  lemma FilledOld(names: seq<string>, i: nat, kept: map<string, string>, before: map<string, string>)
    requires Distinct(names) && i < |names| && FilledTo(names, kept, i, before) && names[i] in before
    ensures FilledTo(names, kept, i + 1, before)
  {
    PrefixGrows(names, i);
    FilledSame(LOOPBACK, kept, names[..i], before, names[i]);
  }

  /** The same, without computing it. */
  lemma {:induction false} FillingExists(names: seq<string>, kept: map<string, string>, i: nat) returns (result: map<string, string>)
    requires Distinct(names) && HasRoom(names, kept) && i <= |names|
    ensures FilledTo(names, kept, i, result)
  {
    if i == 0 {
      NothingFilled(names, kept);
      result := kept;
    } else {
      var before := FillingExists(names, kept, i - 1);
      result := NextExists(names, kept, i - 1, before);
    }
  }

  lemma NothingFilled(names: seq<string>, kept: map<string, string>)
    ensures FilledTo(names, kept, 0, kept)
  {
    assert names[..0] == [];
  }

  lemma NextExists(names: seq<string>, kept: map<string, string>, i: nat, before: map<string, string>)
    returns (result: map<string, string>)
    requires Distinct(names) && HasRoom(names, kept) && i < |names|
    requires FilledTo(names, kept, i, before)
    ensures FilledTo(names, kept, i + 1, result)
  {
    if names[i] in before {
      FilledOld(names, i, kept, before);
      result := before;
    } else {
      RoomIsLeft(names, i, kept, before);
      var ip := FreeAddressExists(names[i], before);
      FilledNew(names, i, kept, before, ip);
      result := before[names[i] := ip];
    }
  }

  lemma FreeAddressExists(name: string, taken: map<string, string>) returns (ip: string)
    requires |SlotsIn(taken)| < SLOTS
    ensures FirstFree(LOOPBACK, taken, name, ip)
  {
    AddressIsFree(name, taken);
    ip := LOOPBACK(name, Tries(LOOPBACK, name, 0, Values(taken)));
  }

  /** With room there is an allocation. */
  lemma AllocationExists(hosts: seq<string>, existing: map<string, string>) returns (result: map<string, string>)
    requires HasRoom(SortedNames(hosts), Kept(SortedNames(hosts), existing))
    ensures IsAllocation(hosts, existing, result)
  {
    var names := SortedNames(hosts);
    SortedNamesAreNames(hosts);
    KeptFacts(names, existing);
    result := FillingExists(names, Kept(names, existing), |names|);
    assert names[..|names|] == names;
  }

  lemma PrefixGrows(names: seq<string>, i: nat)
    requires Distinct(names) && i < |names|
    ensures names[..i + 1] == names[..i] + [names[i]]
    ensures Elements(names[..i + 1]) == Elements(names[..i]) + {names[i]}
    ensures names[i] !in Elements(names[..i])
    ensures Elements(names[..i]) <= Elements(names)
  {
  }

  lemma FilledOne(probes: Probes, kept: map<string, string>, names: seq<string>, before: map<string, string>, name: string, ip: string)
    requires Filled(probes, kept, names, before) && name !in before && name !in kept && FirstFree(probes, before, name, ip)
    ensures Filled(probes, kept, names + [name], before[name := ip])
  {
    assert (names + [name])[..|names|] == names;
    assert before[name := ip] - {name} == before;
  }

  lemma FilledSame(probes: Probes, kept: map<string, string>, names: seq<string>, result: map<string, string>, name: string)
    requires Filled(probes, kept, names, result) && name in kept
    ensures Filled(probes, kept, names + [name], result)
  {
    assert (names + [name])[..|names|] == names;
  }

  method KeepAddresses(names: seq<string>, existing: map<string, string>) returns (result: map<string, string>)
    ensures result == Kept(names, existing)
  {
    result := map[];
    var used: set<string> := {};
    var i := 0;
    while i < |names|
      invariant 0 <= i <= |names|
      invariant result == Kept(names[..i], existing) && used == Values(result)
    {
      var name := names[i];
      assert names[..i + 1][..i] == names[..i];
      if name in existing && PREFIX <= existing[name] && existing[name] !in used {
        ghost var before := result;
        result := result[name := existing[name]];
        NewValue(before, name, existing[name], names[..i], existing);
        used := used + {existing[name]};
      }
      i := i + 1;
    }
    assert names[..|names|] == names;
  }

  lemma NewValue(before: map<string, string>, name: string, ip: string, names: seq<string>, existing: map<string, string>)
    requires before == Kept(names, existing) && name in existing && existing[name] == ip
    ensures Values(before[name := ip]) == Values(before) + {ip}
  {
    KeptFacts(names, existing);
    var m := before[name := ip];
    forall v | v in Values(before) ensures v in Values(m) {
      var n :| n in before && before[n] == v;
      assert n in m && m[n] == v;
    }
    assert name in m && m[name] == ip;
  }

  /** Probe from the hashed slot until an address is free. */
  method ProbeAddress(name: string, taken: map<string, string>) returns (ip: string)
    requires |SlotsIn(taken)| < SLOTS
    ensures FirstFree(LOOPBACK, taken, name, ip)
  {
    var used := Values(taken);
    AddressIsFree(name, taken);
    ghost var goal := Tries(LOOPBACK, name, 0, used);
    ghost var k := 0;
    var slot := HashSlot(name);
    SlotAfterSteps(HashSlot(name), 0);
    while SlotAddress(slot) in used
      invariant 0 <= k <= goal && slot == SlotAfter(HashSlot(name), k)
      decreases goal - k
    {
      assert LOOPBACK(name, k) == SlotAddress(slot);
      SlotAfterSteps(HashSlot(name), k);
      slot := NextSlot(slot);
      k := k + 1;
    }
    ip := SlotAddress(slot);
    assert LOOPBACK(name, k) == ip;
    assert k == goal;
  }

  // ---------- What an allocation guarantees ----------

  /** The value is one of the addresses tried for the name. */
  ghost predicate IsProbe(probes: Probes, name: string, ip: string) {
    exists k :: 0 <= k < SLOTS && ip == probes(name, k)
  }

  lemma {:induction false} FilledFacts(probes: Probes, kept: map<string, string>, names: seq<string>, result: map<string, string>)
    requires Filled(probes, kept, names, result) && Injective(kept)
    ensures result.Keys == kept.Keys + Elements(names)
    ensures forall n :: n in kept ==> result[n] == kept[n]
    ensures Injective(result)
    ensures forall n :: n in result && n !in kept ==> IsProbe(probes, n, result[n])
    decreases |names|
  {
    if names != [] {
      var name, shorter := names[|names| - 1], names[..|names| - 1];
      assert Elements(names) == Elements(shorter) + {name};
      if name in kept {
        FilledFacts(probes, kept, shorter, result);
      } else {
        var before := result - {name};
        FilledFacts(probes, kept, shorter, before);
        assert forall n :: n in before ==> before[n] in Values(before);
        assert result[name] !in Values(before);
        assert forall n :: n in result && n != name ==> n in before && before[n] == result[n];
      }
    }
  }

  /**
    Exactly the normalized aliasable names get an address, pairwise distinct, each either the usable
    earlier one or a slot between 1 and 65534.
  */
  lemma AllocationIsSound(hosts: seq<string>, existing: map<string, string>, result: map<string, string>)
    requires IsAllocation(hosts, existing, result)
    ensures result.Keys == Elements(SortedNames(hosts))
    ensures forall a, b :: a in result && b in result && a != b ==> result[a] != result[b]
    ensures forall n :: n in result ==>
              || (n in existing && Usable(existing[n]) && result[n] == existing[n])
              || SlotIp(result[n])
  {
    var names := SortedNames(hosts);
    KeptFacts(names, existing);
    FilledFacts(LOOPBACK, Kept(names, existing), names, result);
    forall n | n in result && n !in Kept(names, existing)
      ensures SlotIp(result[n])
    {
      var k :| 0 <= k < SLOTS && result[n] == LOOPBACK(n, k);
      assert result[n] == SlotAddress(SlotAfter(HashSlot(n), k));
    }
  }

  /** A usable earlier address is kept unless a name before it, in order, had the same one. */
  lemma {:induction false} EarlierAddressIsKept(names: seq<string>, existing: map<string, string>, i: nat)
    requires i < |names| && Distinct(names) && names[i] in existing && Usable(existing[names[i]])
    requires forall j :: 0 <= j < i && names[j] in existing ==> existing[names[j]] != existing[names[i]]
    ensures names[i] in Kept(names, existing) && Kept(names, existing)[names[i]] == existing[names[i]]
  {
    var before := names[..|names| - 1];
    KeptFacts(before, existing);
    if i == |names| - 1 {
      forall n | n in Kept(before, existing) ensures Kept(before, existing)[n] != existing[names[i]] {
        var j :| 0 <= j < |before| && before[j] == n;
        assert names[j] == n;
      }
    } else {
      EarlierAddressIsKept(before, existing, i);
    }
  }

  lemma AllocationKeeps(hosts: seq<string>, existing: map<string, string>, result: map<string, string>, i: nat)
    requires IsAllocation(hosts, existing, result)
    requires i < |SortedNames(hosts)| && SortedNames(hosts)[i] in existing && Usable(existing[SortedNames(hosts)[i]])
    requires forall j :: 0 <= j < i && SortedNames(hosts)[j] in existing ==>
               existing[SortedNames(hosts)[j]] != existing[SortedNames(hosts)[i]]
    ensures SortedNames(hosts)[i] in result && result[SortedNames(hosts)[i]] == existing[SortedNames(hosts)[i]]
  {
    var names := SortedNames(hosts);
    SortedNamesAreNames(hosts);
    KeptFacts(names, existing);
    EarlierAddressIsKept(names, existing, i);
    FilledFacts(LOOPBACK, Kept(names, existing), names, result);
  }

  lemma AllocatedName(hosts: seq<string>, existing: map<string, string>, result: map<string, string>, n: string)
    requires IsAllocation(hosts, existing, result) && n in result
    ensures exists h :: h in hosts && NormalizeHostname(h) == n
  {
    AllocationIsSound(hosts, existing, result);
    SortedNamesAreNames(hosts);
    assert n in SortedNames(hosts);
  }

  /** Whether a host is in an allocation, in terms of the characters of its normal form. */
  lemma HostIsAllocated(hosts: seq<string>, existing: map<string, string>, result: map<string, string>, h: string)
    requires IsAllocation(hosts, existing, result) && h in hosts
    ensures NormalizeHostname(h) in result <==> Allowed(NormalizeHostname(h))
  {
    AllocationIsSound(hosts, existing, result);
    SortedNamesAreNames(hosts);
    var n := NormalizeHostname(h);
    AliasableExactly(h);
    if n in result {
      assert n in SortedNames(hosts);
      var g :| g in hosts && IsAliasableHost(g) && NormalizeHostname(g) == n;
      AliasableExactly(g);
    }
  }

  /**
    A name without a kept address gets the first slot in cyclic order from its hash: every slot
    before it belongs to a name with a kept address or to a name before it in order.
  */
  lemma {:induction false} NewNamesTakeFirstFree(probes: Probes, kept: map<string, string>, names: seq<string>,
                                                 result: map<string, string>, i: nat)
    requires Filled(probes, kept, names, result) && Injective(kept) && Distinct(names)
    requires i < |names| && names[i] !in kept
    ensures names[i] in result && TookFirst(probes, kept, names, result, i)
    decreases |names|
  {
    var last := |names| - 1;
    FilledFacts(probes, kept, names, result);
    if i == last {
      FilledFacts(probes, kept, names[..last], result - {names[last]});
      LastTookFirst(probes, kept, names, result);
    } else {
      var before := if names[last] in kept then result else result - {names[last]};
      NewNamesTakeFirstFree(probes, kept, names[..last], before, i);
      StillTookFirst(probes, kept, names, before, result, i);
    }
  }

  lemma LastTookFirst(probes: Probes, kept: map<string, string>, names: seq<string>, result: map<string, string>)
    requires names != [] && names[|names| - 1] in result
    requires var before := result - {names[|names| - 1]};
             && before.Keys == kept.Keys + Elements(names[..|names| - 1])
             && FirstFree(probes, before, names[|names| - 1], result[names[|names| - 1]])
    ensures TookFirst(probes, kept, names, result, |names| - 1)
  {
    var name := names[|names| - 1];
    var before := result - {name};
    var k :| 0 <= k < SLOTS && result[name] == probes(name, k)
      && forall j :: 0 <= j < k ==> probes(name, j) in Values(before);
    forall j | 0 <= j < k
      ensures TakenBefore(kept, names, result, |names| - 1, probes(name, j))
    {
      SkippedAreTaken(kept, names, before, result, probes(name, j));
    }
  }

  lemma StillTookFirst(probes: Probes, kept: map<string, string>, names: seq<string>, before: map<string, string>,
                       result: map<string, string>, i: nat)
    requires i < |names| - 1 && names[i] in before && TookFirst(probes, kept, names[..|names| - 1], before, i)
    requires forall n :: n in before ==> n in result && result[n] == before[n]
    ensures TookFirst(probes, kept, names, result, i)
  {
    var k :| 0 <= k < SLOTS && before[names[i]] == probes(names[i], k)
      && forall j :: 0 <= j < k ==> TakenBefore(kept, names[..|names| - 1], before, i, probes(names[i], j));
    forall j | 0 <= j < k
      ensures TakenBefore(kept, names, result, i, probes(names[i], j))
    {
      TakenStays(kept, names, before, result, i, probes(names[i], j));
    }
  }

  /** The `i`-th name got the first address tried for it that was not taken before it. */
  ghost predicate TookFirst(probes: Probes, kept: map<string, string>, names: seq<string>, result: map<string, string>, i: nat)
    requires i < |names| && names[i] in result
  {
    exists k :: 0 <= k < SLOTS && result[names[i]] == probes(names[i], k)
      && forall j :: 0 <= j < k ==> TakenBefore(kept, names, result, i, probes(names[i], j))
  }

  lemma TakenStays(kept: map<string, string>, names: seq<string>, before: map<string, string>, result: map<string, string>,
                   i: nat, ip: string)
    requires i < |names| - 1 && TakenBefore(kept, names[..|names| - 1], before, i, ip)
    requires forall n :: n in before ==> n in result && result[n] == before[n]
    ensures TakenBefore(kept, names, result, i, ip)
  {
    var shorter := names[..|names| - 1];
    var n :| n in before && before[n] == ip && (n in kept || exists m :: 0 <= m < i && shorter[m] == n);
    if n !in kept {
      var m :| 0 <= m < i && shorter[m] == n;
      assert names[m] == n;
    }
  }

  /** Every slot the last name skipped belongs to a name with a kept address or before it. */
  lemma SkippedAreTaken(kept: map<string, string>, names: seq<string>, before: map<string, string>, result: map<string, string>,
                        ip: string)
    requires names != [] && ip in Values(before)
    requires before.Keys == kept.Keys + Elements(names[..|names| - 1])
    requires forall n :: n in before ==> n in result && result[n] == before[n]
    ensures TakenBefore(kept, names, result, |names| - 1, ip)
  {
    var shorter := names[..|names| - 1];
    var n :| n in before && before[n] == ip;
    if n !in kept {
      var m :| 0 <= m < |shorter| && shorter[m] == n;
      assert names[m] == n;
    }
  }

  ghost predicate TakenBefore(kept: map<string, string>, names: seq<string>, result: map<string, string>, i: nat, ip: string)
    requires i < |names|
  {
    exists n :: n in result && result[n] == ip && (n in kept || exists m :: 0 <= m < i && names[m] == n)
  }

  /** New names probe in cyclic order from their hash, for a whole allocation. */
  lemma AllocationProbes(hosts: seq<string>, existing: map<string, string>, result: map<string, string>, i: nat)
    requires IsAllocation(hosts, existing, result)
    requires i < |SortedNames(hosts)| && SortedNames(hosts)[i] !in Kept(SortedNames(hosts), existing)
    ensures var names := SortedNames(hosts);
            names[i] in result && TookFirst(LOOPBACK, Kept(names, existing), names, result, i)
    ensures forall k: nat :: LOOPBACK(SortedNames(hosts)[i], k) == SlotAddress(SlotAfter(HashSlot(SortedNames(hosts)[i]), k))
  {
    var names := SortedNames(hosts);
    SortedNamesAreNames(hosts);
    KeptFacts(names, existing);
    NewNamesTakeFirstFree(LOOPBACK, Kept(names, existing), names, result, i);
  }
}
