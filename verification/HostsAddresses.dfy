/** How long a host keeps its address: exactly as long as its entry stands, or stands again, when it is read back. */
module HostsAddresses {
  import opened Util
  import opened HostNames
  import opened HostAllocation
  import opened HostsText
  import opened HostsDoc
  import opened HostsRuns
  import opened HostsSimulation
  import opened HostsTheorems

  // ---------- Where a tag's entry for a host stands ----------

  /** No entry, one in force, or one that another tag has disabled. */
  datatype Standing = Absent | InForce(ip: string) | Hidden(cover: string, ip: string)

  /** When tag `t` takes back what it disabled. */
  function Uncovered(s: Standing, t: string): Standing {
    if s.Hidden? && s.cover == t then InForce(s.ip) else s
  }

  function AfterMerge(s: Standing, t: string, addresses: map<string, string>, tag: string, n: string): Standing {
    if t == tag then
      if n !in addresses then Absent else if s.InForce? then s else InForce(addresses[n])
    else
      var u := Uncovered(s, t);
      if u.InForce? && n in addresses then Hidden(t, u.ip) else u
  }

  /** What one command makes of the entry of `tag` for `n`; an apply that fails changes nothing. */
  ghost function AfterOp(s: Standing, text: string, op: Op, tag: string, n: string): Standing
    requires Fits(text, op)
  {
    if op.Remove? then if op.tag == tag then Absent else Uncovered(s, op.tag)
    else if Merges(text, op) then AfterMerge(s, op.tag, op.addresses, tag, n)
    else s
  }

  ghost function AfterOps(s: Standing, text: string, ops: seq<Op>, tag: string, n: string): Standing
    requires AllFit(text, ops)
    decreases |ops|
  {
    if ops == [] then s
    else AfterOps(AfterOp(s, text, ops[0], tag, n), After(text, ops[0]), ops[1..], tag, n)
  }

  predicate IsFor(e: Element, tag: string, n: string) {
    e.Entry? && e.tag == tag && e.name == n
  }

  /** The one entry that a standing speaks of. */
  function EntryOf(s: Standing, tag: string, n: string): Element
    requires !s.Absent?
  {
    Entry(tag, if s.Hidden? then Some(s.cover) else None, s.ip, n)
  }

  ghost predicate OnlyEntry(doc: Doc, x: Element, tag: string, n: string) {
    x in doc && forall e :: e in doc && IsFor(e, tag, n) ==> e == x
  }

  ghost predicate NoEntry(doc: Doc, tag: string, n: string) {
    forall e :: e in doc ==> !IsFor(e, tag, n)
  }

  /** The structure has the entry as the standing says, and no other. */
  ghost predicate Stands(doc: Doc, s: Standing, tag: string, n: string) {
    if s.Absent? then NoEntry(doc, tag, n) else OnlyEntry(doc, EntryOf(s, tag, n), tag, n)
  }

  // ---------- The commands on the structure ----------

  lemma ClearedStands(doc: Doc, s: Standing, tag: string, n: string, t: string)
    requires Stands(doc, s, tag, n) && t != tag
    ensures Stands(Cleared(doc, t), Uncovered(s, t), tag, n)
  {
    ClearedMembers(doc, t);
    if !s.Absent? {
      assert Restored(EntryOf(s, tag, n), t) == EntryOf(Uncovered(s, t), tag, n);
    }
  }

  lemma ClearedIsAbsent(doc: Doc, tag: string, n: string)
    ensures NoEntry(Cleared(doc, tag), tag, n)
  {
    ClearedMembers(doc, tag);
  }

  lemma OverriddenStands(doc: Doc, s: Standing, tag: string, n: string, t: string, names: set<string>)
    requires Stands(doc, s, tag, n)
    ensures Stands(Override(doc, t, names), if s.InForce? && n in names then Hidden(t, s.ip) else s, tag, n)
  {
    var over := Override(doc, t, names);
    forall i | 0 <= i < |over|
      ensures IsFor(over[i], tag, n) ==> !s.Absent? && over[i] == Overridden(EntryOf(s, tag, n), t, names)
    {
      assert doc[i] in doc;
    }
    if !s.Absent? {
      var i :| 0 <= i < |doc| && doc[i] == EntryOf(s, tag, n);
      assert over[i] in over;
    }
  }

  lemma StandsBeside(a: Doc, b: Doc, s: Standing, tag: string, n: string)
    requires Stands(a, s, tag, n) && NoEntry(b, tag, n)
    ensures Stands(a + b, s, tag, n)
  {
  }

  lemma OtherBlockHasNone(t: string, order: seq<string>, addresses: map<string, string>, tag: string, n: string)
    requires Covers(order, addresses) && t != tag
    ensures NoEntry(BlockElements(t, order, addresses), tag, n)
  {
  }

  /** Another tag's merge. */
  lemma OtherMergeStands(doc: Doc, s: Standing, tag: string, n: string, t: string, order: seq<string>, addresses: map<string, string>)
    requires Stands(doc, s, tag, n) && Covers(order, addresses) && t != tag
    ensures Stands(Merged(doc, t, order, addresses), AfterMerge(s, t, addresses, tag, n), tag, n)
  {
    ClearedStands(doc, s, tag, n, t);
    OverriddenStands(Cleared(doc, t), Uncovered(s, t), tag, n, t, addresses.Keys);
    OtherBlockHasNone(t, order, addresses, tag, n);
    StandsBeside(Override(Cleared(doc, t), t, addresses.Keys), BlockElements(t, order, addresses),
                 AfterMerge(s, t, addresses, tag, n), tag, n);
  }

  lemma OwnBlockStands(tag: string, order: seq<string>, addresses: map<string, string>, n: string)
    requires Covers(order, addresses)
    ensures Stands(BlockElements(tag, order, addresses), if n in addresses then InForce(addresses[n]) else Absent, tag, n)
  {
    if n in addresses {
      var i :| 0 <= i < |order| && order[i] == n;
      assert EntryElements(tag, order, addresses)[i] == Entry(tag, None, addresses[n], n);
      assert Entry(tag, None, addresses[n], n) in EntryElements(tag, order, addresses);
    }
  }

  lemma AbsentBeside(a: Doc, b: Doc, s: Standing, tag: string, n: string)
    requires NoEntry(a, tag, n) && Stands(b, s, tag, n)
    ensures Stands(a + b, s, tag, n)
  {
  }

  /** The tag's own merge. */
  lemma OwnMergeStands(doc: Doc, tag: string, n: string, order: seq<string>, addresses: map<string, string>)
    requires Covers(order, addresses)
    ensures Stands(Merged(doc, tag, order, addresses), if n in addresses then InForce(addresses[n]) else Absent, tag, n)
  {
    ClearedIsAbsent(doc, tag, n);
    OverriddenStands(Cleared(doc, tag), Absent, tag, n, tag, addresses.Keys);
    OwnBlockStands(tag, order, addresses, n);
    AbsentBeside(Override(Cleared(doc, tag), tag, addresses.Keys), BlockElements(tag, order, addresses),
                 if n in addresses then InForce(addresses[n]) else Absent, tag, n);
  }

  // ---------- Whole runs ----------

  lemma OthersRecordOtherwise(doc: Doc, tag: string, newline: string, n: string, ip: string, m: string)
    requires AllGood(doc, newline) && Sound(doc) && Entry(tag, None, ip, n) in doc && Usable(ip)
    requires m != n && m in EntriesOf(doc, tag, map[])
    ensures EntriesOf(doc, tag, map[])[m] != ip
  {
    if Usable(EntriesOf(doc, tag, map[])[m]) {
      UsableRecordsAreEntries(doc, tag, newline, map[], m);
    }
  }

  lemma KeptAddress(text: string, doc: Doc, op: Op, n: string, ip: string)
    requires Represents(text, doc) && Sound(doc) && op.Apply? && Fits(text, op)
    requires Entry(op.tag, None, ip, n) in doc && n in op.addresses
    ensures op.addresses[n] == ip
  {
    var existing, names := ExistingEntries(text, op.tag), SortedNames(op.hosts);
    RecordedEntries(text, doc, op.tag);
    assert Good(Entry(op.tag, None, ip, n), NewlineOf(text));
    EntryIsRecorded(doc, op.tag, NewlineOf(text), map[], n, ip);
    SlotIsUsable(ip);
    assert n in names;
    var i :| 0 <= i < |names| && names[i] == n;
    SortedNamesAreNames(op.hosts);
    forall j | 0 <= j < i && names[j] in existing ensures existing[names[j]] != existing[n] {
      OthersRecordOtherwise(doc, op.tag, NewlineOf(text), n, ip, names[j]);
    }
    AllocationKeeps(op.hosts, existing, op.addresses, i);
  }

  lemma StepStands(text: string, doc: Doc, op: Op, s: Standing, tag: string, n: string)
    requires Represents(text, doc) && Sound(doc) && Fits(text, op) && Stands(doc, s, tag, n)
    ensures Stands(DocAfter(doc, op), AfterOp(s, text, op, tag, n), tag, n)
  {
    if op.Remove? {
      if op.tag == tag {
        ClearedIsAbsent(doc, tag, n);
      } else {
        ClearedStands(doc, s, tag, n, op.tag);
      }
    } else {
      ApplyShows(text, doc, op);
      if Takes(doc, op) {
        MergeStands(text, doc, op, s, tag, n);
      }
    }
  }

  lemma MergeStands(text: string, doc: Doc, op: Op, s: Standing, tag: string, n: string)
    requires Represents(text, doc) && Sound(doc) && op.Apply? && Fits(text, op) && Stands(doc, s, tag, n)
    requires Covers(SortedNames(op.hosts), op.addresses)
    ensures Stands(Merged(doc, op.tag, SortedNames(op.hosts), op.addresses), AfterMerge(s, op.tag, op.addresses, tag, n), tag, n)
  {
    if op.tag == tag {
      OwnMergeStands(doc, tag, n, SortedNames(op.hosts), op.addresses);
      if s.InForce? && n in op.addresses {
        KeptAddress(text, doc, op, n, s.ip);
      }
    } else {
      OtherMergeStands(doc, s, tag, n, op.tag, SortedNames(op.hosts), op.addresses);
    }
  }

  lemma {:induction false} RunStands(text: string, doc: Doc, ops: seq<Op>, s: Standing, tag: string, n: string)
    requires Represents(text, doc) && Sound(doc) && AllFit(text, ops) && Stands(doc, s, tag, n)
    ensures Represents(Final(text, ops), FinalDoc(doc, ops)) && Sound(FinalDoc(doc, ops))
    ensures Stands(FinalDoc(doc, ops), AfterOps(s, text, ops, tag, n), tag, n)
    decreases |ops|
  {
    if ops != [] {
      var op := ops[0];
      StepShows(text, doc, op);
      StepKeepsSound(text, doc, op);
      StepStands(text, doc, op, s, tag, n);
      RunStands(After(text, op), DocAfter(doc, op), ops[1..], AfterOp(s, text, op, tag, n), tag, n);
    }
  }

  /** The address that the file has on record for the host under this tag. */
  predicate OnRecord(text: string, tag: string, n: string, ip: string) {
    n in ExistingEntries(text, tag) && ExistingEntries(text, tag)[n] == ip
  }

  /** An address is read back exactly when the entry with it is in force. */
  lemma ReadBackExactly(text: string, doc: Doc, s: Standing, tag: string, n: string, ip: string)
    requires Represents(text, doc) && ValidTag(tag) && Stands(doc, s, tag, n) && MappableName(n) && SlotIp(ip)
    ensures OnRecord(text, tag, n, ip) <==> s == InForce(ip)
  {
    RecordedEntries(text, doc, tag);
    SlotIsUsable(ip);
    if OnRecord(text, tag, n, ip) {
      UsableRecordsAreEntries(doc, tag, NewlineOf(text), map[], n);
    }
    if s == InForce(ip) {
      EntryIsRecorded(doc, tag, NewlineOf(text), map[], n, ip);
    }
  }

  /** The structure after an apply that went through and more commands, with the standing of a host of the apply. */
  lemma StandsAfterApply(text: string, first: Op, between: seq<Op>, n: string) returns (doc: Doc)
    requires Reachable(text) && Merges(text, first) && n in first.addresses && AllFit(After(text, first), between)
    ensures Represents(Final(After(text, first), between), doc) && Sound(doc)
    ensures Stands(doc, AfterOps(InForce(first.addresses[n]), After(text, first), between, first.tag, n), first.tag, n)
    ensures MappableName(n) && SlotIp(first.addresses[n])
  {
    var start := ReachableShows(text);
    ApplyShows(text, start, first);
    StepShows(text, start, first);
    StepKeepsSound(text, start, first);
    OwnMergeStands(start, first.tag, n, SortedNames(first.hosts), first.addresses);
    RunStands(After(text, first), DocAfter(start, first), between, InForce(first.addresses[n]), first.tag, n);
    doc := FinalDoc(DocAfter(start, first), between);
  }

  /**
    The exact condition, for every reachable file and every run: the address of an apply is still on
    record after more commands if and only if its entry is in force then, whatever it went through.
  */
  lemma RecordStaysExactly(text: string, first: Op, between: seq<Op>, n: string)
    requires Reachable(text) && Merges(text, first) && n in first.addresses && AllFit(After(text, first), between)
    ensures OnRecord(Final(After(text, first), between), first.tag, n, first.addresses[n]) <==>
            AfterOps(InForce(first.addresses[n]), After(text, first), between, first.tag, n) == InForce(first.addresses[n])
  {
    var doc := StandsAfterApply(text, first, between, n);
    ReadBackExactly(Final(After(text, first), between), doc,
                    AfterOps(InForce(first.addresses[n]), After(text, first), between, first.tag, n), first.tag, n, first.addresses[n]);
  }

  /**
    A host keeps its address from one apply of a tag to a later one, whatever other hosts come and go
    and whatever other tags do, when its entry is in force as the later one reads the file.
  */
  lemma HostKeepsAddress(text: string, first: Op, between: seq<Op>, last: Op, n: string)
    requires Reachable(text) && Merges(text, first) && n in first.addresses && AllFit(After(text, first), between)
    requires AfterOps(InForce(first.addresses[n]), After(text, first), between, first.tag, n) == InForce(first.addresses[n])
    requires last.Apply? && last.tag == first.tag && Fits(Final(After(text, first), between), last) && n in last.addresses
    ensures last.addresses[n] == first.addresses[n]
  {
    var doc := StandsAfterApply(text, first, between, n);
    KeptAddress(Final(After(text, first), between), doc, last, n, first.addresses[n]);
  }

  /** A command that neither drops the tag's entry for the name nor disables it. */
  ghost predicate Respects(op: Op, tag: string, n: string) {
    if op.tag == tag then op.Apply? && (op.hosts == [] || n in op.addresses)
    else op.Apply? ==> n !in op.addresses
  }

  /** So it is while every apply of the tag has the host, no removal drops the tag and no other tag maps the host. */
  lemma {:induction false} RespectedStays(text: string, ops: seq<Op>, tag: string, n: string, ip: string)
    requires AllFit(text, ops) && forall i :: 0 <= i < |ops| ==> Respects(ops[i], tag, n)
    ensures AfterOps(InForce(ip), text, ops, tag, n) == InForce(ip)
    decreases |ops|
  {
    if ops != [] {
      assert Respects(ops[0], tag, n);
      RespectedStays(After(text, ops[0]), ops[1..], tag, n, ip);
    }
  }

  /** And so it is again when another tag that mapped the host in between is removed. */
  lemma RemovedAgainStays(text: string, over: Op, tag: string, n: string, ip: string)
    requires over.Apply? && over.tag != tag && AllFit(text, [over, Remove(over.tag)])
    ensures AfterOps(InForce(ip), text, [over, Remove(over.tag)], tag, n) == InForce(ip)
  {
    var ops, mid := [over, Remove(over.tag)], After(text, over);
    assert ops[1..] == [Remove(over.tag)] && ops[1..][1..] == [];
    var s := AfterOp(InForce(ip), text, over, tag, n);
    assert AfterOps(s, mid, ops[1..], tag, n) == AfterOp(s, mid, Remove(over.tag), tag, n);
  }
}
