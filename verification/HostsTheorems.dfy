/** What the hosts-file commands guarantee over whole runs. */
module HostsTheorems {
  import opened Util
  import opened HostNames
  import opened HostAllocation
  import opened HostsText
  import opened HostsDoc
  import opened HostsRuns
  import opened HostsSimulation

  // ---------- One command on the structure ----------

  ghost predicate Takes(doc: Doc, op: Op) {
    op.Apply? && op.hosts != [] && (op.replace || !Blocked(doc, op.tag, op.addresses.Keys))
  }

  ghost function DocAfter(doc: Doc, op: Op): Doc {
    if op.Remove? then Cleared(doc, op.tag)
    else if Takes(doc, op) && Covers(SortedNames(op.hosts), op.addresses)
    then Merged(doc, op.tag, SortedNames(op.hosts), op.addresses)
    else doc
  }

  lemma ApplyShows(text: string, doc: Doc, op: Op)
    requires Represents(text, doc) && op.Apply? && Fits(text, op)
    ensures Outcome(text, op) ==
            if Takes(doc, op) then Some(Unlines(Lines(DocAfter(doc, op)), NewlineOf(text))) else None
    ensures CleanAddresses(op.addresses) && Covers(SortedNames(op.hosts), op.addresses)
  {
    AllocationIsClean(text, doc, op);
    MergeShows(text, doc, op.tag, SortedNames(op.hosts), op.addresses, op.replace);
  }

  lemma MergedIsWritten(doc: Doc, tag: string, order: seq<string>, addresses: map<string, string>, newline: string)
    requires newline in {LF, CRLF} && AllGood(doc, newline) && Bracketed(doc, None) && Tight(doc)
    requires ValidTag(tag) && Covers(order, addresses) && CleanAddresses(addresses)
    ensures var d := Merged(doc, tag, order, addresses);
            var after := Unlines(Lines(d), newline);
            Represents(after, d) && Written(after, d) && NewlineOf(after) == newline && LinesOf(after) == Lines(d)
  {
    MergedIsSound(doc, tag, order, addresses, newline);
    WritingRepresents(Merged(doc, tag, order, addresses), newline);
  }

  lemma MergedShows(text: string, doc: Doc, op: Op)
    requires Represents(text, doc) && op.Apply? && Fits(text, op)
    requires CleanAddresses(op.addresses) && Covers(SortedNames(op.hosts), op.addresses)
    ensures var d := Merged(doc, op.tag, SortedNames(op.hosts), op.addresses);
            var after := Unlines(Lines(d), NewlineOf(text));
            && Represents(after, d) && Written(after, d) && Core(d) == Core(doc) && NewlineOf(after) == NewlineOf(text)
            && LinesOf(after) == Lines(d)
  {
    MergedIsWritten(doc, op.tag, SortedNames(op.hosts), op.addresses, NewlineOf(text));
    MergingKeepsCore(doc, op.tag, SortedNames(op.hosts), op.addresses);
  }

  /** A command on a text does to the structure what it should, and keeps the line ending. */
  lemma StepShows(text: string, doc: Doc, op: Op)
    requires Represents(text, doc) && Fits(text, op)
    ensures Represents(After(text, op), DocAfter(doc, op)) && Core(DocAfter(doc, op)) == Core(doc)
    ensures op.Remove? ==> Written(After(text, op), DocAfter(doc, op))
    ensures Core(doc) != [] ==> NewlineOf(After(text, op)) == NewlineOf(text)
  {
    if op.Remove? {
      RemoveShows(text, doc, op.tag);
      ClearingKeepsCore(doc, op.tag);
    } else {
      ApplyShows(text, doc, op);
      if Takes(doc, op) {
        MergedShows(text, doc, op);
      }
    }
  }

  // ---------- Which tags can still show ----------

  predicate MarkWithin(mark: Option<string>, tags: set<string>) {
    mark.Some? ==> mark.value in tags
  }

  predicate Within(e: Element, tags: set<string>) {
    match e
    case User(mark, _) => MarkWithin(mark, tags)
    case Entry(t, mark, _, _) => t in tags && MarkWithin(mark, tags)
    case Open(t) => t in tags
    case Close(t) => t in tags
  }

  predicate OnlyTags(doc: Doc, tags: set<string>) {
    forall e :: e in doc ==> Within(e, tags)
  }

  function NextTags(tags: set<string>, op: Op): set<string> {
    if op.Remove? then tags - {op.tag} else tags + {op.tag}
  }

  /** The tags with an apply that no later removal has undone. */
  function Pending(tags: set<string>, ops: seq<Op>): set<string>
    decreases |ops|
  {
    if ops == [] then tags else Pending(NextTags(tags, ops[0]), ops[1..])
  }

  lemma ClearingDropsTag(doc: Doc, tag: string, tags: set<string>)
    requires OnlyTags(doc, tags)
    ensures OnlyTags(Cleared(doc, tag), tags - {tag})
  {
    ClearedMembers(doc, tag);
  }

  lemma OverridingAddsTag(doc: Doc, tag: string, names: set<string>, tags: set<string>)
    requires OnlyTags(doc, tags)
    ensures OnlyTags(Override(doc, tag, names), tags + {tag})
  {
    var over := Override(doc, tag, names);
    forall e | e in over ensures Within(e, tags + {tag}) {
      var i :| 0 <= i < |over| && over[i] == e;
      assert doc[i] in doc && Within(doc[i], tags);
    }
  }

  lemma StepTags(doc: Doc, op: Op, tags: set<string>)
    requires OnlyTags(doc, tags)
    ensures OnlyTags(DocAfter(doc, op), NextTags(tags, op))
  {
    ClearingDropsTag(doc, op.tag, tags);
    if op.Apply? && Covers(SortedNames(op.hosts), op.addresses) {
      OverridingAddsTag(Cleared(doc, op.tag), op.tag, op.addresses.Keys, tags - {op.tag});
      assert forall e :: e in BlockElements(op.tag, SortedNames(op.hosts), op.addresses) ==> Within(e, tags + {op.tag});
    }
  }

  // ---------- Runs ----------

  /** Where a run leads, in the structure. */
  ghost function FinalDoc(doc: Doc, ops: seq<Op>): Doc
    decreases |ops|
  {
    if ops == [] then doc else FinalDoc(DocAfter(doc, ops[0]), ops[1..])
  }

  lemma {:induction false} RunShows(text: string, doc: Doc, ops: seq<Op>, tags: set<string>)
    requires Represents(text, doc) && AllFit(text, ops) && OnlyTags(doc, tags)
    ensures Represents(Final(text, ops), FinalDoc(doc, ops)) && Core(FinalDoc(doc, ops)) == Core(doc)
    ensures OnlyTags(FinalDoc(doc, ops), Pending(tags, ops))
    ensures Core(doc) != [] ==> NewlineOf(Final(text, ops)) == NewlineOf(text)
    ensures ops != [] && ops[|ops| - 1].Remove? ==> Written(Final(text, ops), FinalDoc(doc, ops))
    decreases |ops|
  {
    if ops != [] {
      var op, rest := ops[0], ops[1..];
      StepShows(text, doc, op);
      StepTags(doc, op, tags);
      RunShows(After(text, op), DocAfter(doc, op), rest, NextTags(tags, op));
    }
  }

  // ---------- Everything removed: the original file ----------

  /** The file as it was, with blank lines at its end dropped and its last line ended. */
  function NormalForm(text: string): string {
    Unlines(DropBlank(LinesOf(text)), NewlineOf(text))
  }

  lemma {:induction false} OnlyUsersAreLeft(doc: Doc)
    requires OnlyTags(doc, {})
    ensures Lines(doc) == Core(doc)
  {
    if doc != [] {
      assert Within(doc[0], {});
      OnlyUsersAreLeft(doc[1..]);
    }
  }

  lemma {:induction false} LastIsRemove(tags: set<string>, ops: seq<Op>)
    requires ops != [] && Pending(tags, ops) == {}
    ensures ops[|ops| - 1].Remove?
    decreases |ops|
  {
    if |ops| > 1 {
      LastIsRemove(NextTags(tags, ops[0]), ops[1..]);
    }
  }

  /**
    After any run in which every applied tag was removed again after its last apply, in any order
    and with any other commands in between, the file is the original in normal form.
  */
  lemma RemovingAllGivesOriginal(text: string, ops: seq<Op>)
    requires Pristine(text) && AllFit(text, ops) && ops != [] && Pending({}, ops) == {}
    ensures Final(text, ops) == NormalForm(text)
  {
    var lines := DropBlank(LinesOf(text));
    var doc := UserElements(lines);
    PristineShowsItself(text);
    RunShows(text, doc, ops, {});
    LastIsRemove({}, ops);
    OnlyUsersAreLeft(FinalDoc(doc, ops));
  }

  /** In particular: any work, then removals that cover every tag used, in any order. */
  lemma WorkThenRemovals(text: string, work: seq<Op>, removals: seq<Op>)
    requires Pristine(text) && AllFit(text, work + removals) && work + removals != []
    requires forall op :: op in removals ==> op.Remove?
    requires forall op :: op in work && op.Apply? ==> Remove(op.tag) in removals
    ensures Final(text, work + removals) == NormalForm(text)
  {
    PendingAppends({}, work, removals);
    PendingWithin({}, work);
    RemovalsClear(Pending({}, work), removals);
    RemovingAllGivesOriginal(text, work + removals);
  }

  lemma {:induction false} PendingAppends(tags: set<string>, a: seq<Op>, b: seq<Op>)
    ensures Pending(tags, a + b) == Pending(Pending(tags, a), b)
    decreases |a|
  {
    if a == [] {
      assert a + b == b;
    } else {
      assert (a + b)[0] == a[0] && (a + b)[1..] == a[1..] + b;
      PendingAppends(NextTags(tags, a[0]), a[1..], b);
    }
  }

  lemma {:induction false} PendingWithin(tags: set<string>, ops: seq<Op>)
    ensures forall t :: t in Pending(tags, ops) ==> t in tags || exists op :: op in ops && op.Apply? && op.tag == t
    decreases |ops|
  {
    if ops != [] {
      var next := NextTags(tags, ops[0]);
      PendingWithin(next, ops[1..]);
      forall t | t in Pending(tags, ops) && t !in tags ensures exists op :: op in ops && op.Apply? && op.tag == t {
        if t in next {
          assert ops[0] in ops;
        } else {
          var op :| op in ops[1..] && op.Apply? && op.tag == t;
          assert op in ops;
        }
      }
    }
  }

  lemma {:induction false} RemovalsClear(tags: set<string>, removals: seq<Op>)
    requires forall op :: op in removals ==> op.Remove?
    requires forall t :: t in tags ==> Remove(t) in removals
    ensures Pending(tags, removals) == {}
    decreases |removals|
  {
    if removals != [] {
      assert removals[0] in removals;
      forall t | t in tags - {removals[0].tag} ensures Remove(t) in removals[1..] {
        assert Remove(t) != removals[0];
      }
      RemovalsClear(tags - {removals[0].tag}, removals[1..]);
    }
  }

  // ---------- What reachable files show ----------

  lemma {:induction false} SoundInitially(lines: seq<string>)
    ensures Sound(UserElements(lines)) && OnlyTags(UserElements(lines), {})
  {
  }

  lemma ClearingKeepsSound(doc: Doc, tag: string)
    requires Sound(doc)
    ensures Sound(Cleared(doc, tag))
  {
    ClearedMembers(doc, tag);
  }

  lemma OverridingKeepsSound(doc: Doc, tag: string, names: set<string>)
    requires Sound(doc)
    ensures Sound(Override(doc, tag, names))
  {
    var over := Override(doc, tag, names);
    forall d, e | d in over && e in over && d.Entry? && e.Entry? && d.tag == e.tag
      ensures d.name == e.name <==> d.ip == e.ip
    {
      var i :| 0 <= i < |over| && over[i] == d;
      var j :| 0 <= j < |over| && over[j] == e;
      assert doc[i] in doc && doc[j] in doc;
    }
  }

  lemma ClearedIsNotOwned(doc: Doc, tag: string, names: set<string>)
    ensures forall e :: e in Override(Cleared(doc, tag), tag, names) ==> !OwnedBy(e, tag)
  {
    ClearedMembers(doc, tag);
    var base := Cleared(doc, tag);
    var over := Override(base, tag, names);
    forall e | e in over ensures !OwnedBy(e, tag) {
      var i :| 0 <= i < |over| && over[i] == e;
      assert base[i] in base;
    }
  }

  lemma MergingKeepsSound(doc: Doc, tag: string, order: seq<string>, addresses: map<string, string>)
    requires Sound(doc) && Covers(order, addresses)
    requires forall a, b :: a in addresses && b in addresses && a != b ==> addresses[a] != addresses[b]
    ensures Sound(Merged(doc, tag, order, addresses))
  {
    var over := Override(Cleared(doc, tag), tag, addresses.Keys);
    ClearingKeepsSound(doc, tag);
    OverridingKeepsSound(Cleared(doc, tag), tag, addresses.Keys);
    ClearedIsNotOwned(doc, tag, addresses.Keys);
    SoundWithBlock(over, BlockElements(tag, order, addresses), tag, addresses);
  }

  lemma SoundWithBlock(over: Doc, block: Doc, tag: string, addresses: map<string, string>)
    requires Sound(over) && forall e :: e in over ==> !OwnedBy(e, tag)
    requires forall e :: e in block && e.Entry? ==> e.tag == tag && e.name in addresses && e.ip == addresses[e.name]
    requires forall a, b :: a in addresses && b in addresses && a != b ==> addresses[a] != addresses[b]
    ensures Sound(over + block)
  {
    forall d, e | d in over + block && e in over + block && d.Entry? && e.Entry? && d.tag == e.tag
      ensures d.name == e.name <==> d.ip == e.ip
    {
      if d.tag == tag {
        assert d in block && e in block;
      } else {
        assert d in over && e in over;
      }
    }
  }

  lemma StepKeepsSound(text: string, doc: Doc, op: Op)
    requires Represents(text, doc) && Fits(text, op) && Sound(doc)
    ensures Sound(DocAfter(doc, op))
  {
    if op.Remove? {
      ClearingKeepsSound(doc, op.tag);
    } else {
      AllocationIsClean(text, doc, op);
      MergingKeepsSound(doc, op.tag, SortedNames(op.hosts), op.addresses);
    }
  }

  lemma {:induction false} RunKeepsSound(text: string, doc: Doc, ops: seq<Op>)
    requires Represents(text, doc) && AllFit(text, ops) && Sound(doc)
    ensures Sound(FinalDoc(doc, ops))
    decreases |ops|
  {
    if ops != [] {
      StepShows(text, doc, ops[0]);
      StepKeepsSound(text, doc, ops[0]);
      RunKeepsSound(After(text, ops[0]), DocAfter(doc, ops[0]), ops[1..]);
    }
  }

  lemma ReachableShows(text: string) returns (doc: Doc)
    requires Reachable(text)
    ensures Represents(text, doc) && Sound(doc)
  {
    var start, ops :| Pristine(start) && Leads(start, ops, text);
    var lines := DropBlank(LinesOf(start));
    PristineShowsItself(start);
    SoundInitially(lines);
    RunShows(start, UserElements(lines), ops, {});
    RunKeepsSound(start, UserElements(lines), ops);
    doc := FinalDoc(UserElements(lines), ops);
  }

  /** Applying hosts with replacement never fails on a reachable file. */
  lemma ReplacingNeverFails(text: string, tag: string, hosts: seq<string>) returns (op: Op)
    requires Reachable(text) && ValidTag(tag) && hosts != [] && |SortedNames(hosts)| <= SLOTS
    ensures op.Apply? && op.tag == tag && op.hosts == hosts && op.replace && Merges(text, op)
  {
    var existing := ExistingEntries(text, tag);
    FewHostsHaveRoom(hosts, existing);
    var addresses := AllocationExists(hosts, existing);
    AllocationIsSound(hosts, existing, addresses);
    op := Apply(tag, hosts, true, addresses);
    var doc := ReachableShows(text);
    ApplyShows(text, doc, op);
  }

  /** Distinct slot addresses are for no more names than there are slots. */
  lemma CleanIsFew(addresses: map<string, string>)
    requires CleanAddresses(addresses) && Injective(addresses)
    ensures |addresses.Keys| <= SLOTS
  {
    InjectiveCount(addresses);
    assert SlotsIn(addresses) == Values(addresses);
    SlotsAreFew(addresses);
  }

  /** On a reachable file the number of names alone decides: every earlier address there is a slot. */
  lemma ReplacingWorksExactly(text: string, tag: string, hosts: seq<string>)
    requires Reachable(text) && ValidTag(tag) && hosts != []
    ensures |SortedNames(hosts)| <= SLOTS <==>
              exists op :: Merges(text, op) && op.tag == tag && op.hosts == hosts && op.replace
  {
    if |SortedNames(hosts)| <= SLOTS {
      var op := ReplacingNeverFails(text, tag, hosts);
    }
    forall op | Merges(text, op) && op.tag == tag && op.hosts == hosts && op.replace
      ensures |SortedNames(hosts)| <= SLOTS
    {
      var doc := ReachableShows(text);
      AllocationIsClean(text, doc, op);
      SortedNamesAreNames(hosts);
      DistinctCount(SortedNames(hosts));
      CleanIsFew(op.addresses);
    }
  }

  // ---------- Reading back ----------

  lemma {:induction false} EntriesAppend(a: Doc, b: Doc, tag: string, found: map<string, string>)
    ensures EntriesOf(a + b, tag, found) == EntriesOf(b, tag, EntriesOf(a, tag, found))
  {
    if a == [] {
      assert a + b == b;
    } else {
      assert (a + b)[0] == a[0] && (a + b)[1..] == a[1..] + b;
      EntriesAppend(a[1..], b, tag, if a[0].Entry? && a[0].tag == tag then Noted(a[0], found) else found);
    }
  }

  lemma {:induction false} OthersRecordNothing(doc: Doc, tag: string, found: map<string, string>)
    requires forall e :: e in doc ==> !OwnedBy(e, tag)
    ensures EntriesOf(doc, tag, found) == found
  {
    if doc != [] {
      assert doc[0] in doc;
      OthersRecordNothing(doc[1..], tag, found);
    }
  }

  lemma {:induction false} BlockRecords(tag: string, order: seq<string>, addresses: map<string, string>, found: map<string, string>)
    requires forall n :: n in order ==> n in addresses
    ensures var m := EntriesOf(EntryElements(tag, order, addresses), tag, found);
            && (forall n :: n in order ==> n in m && m[n] == addresses[n])
            && (forall n :: n in m ==> n in order || (n in found && m[n] == found[n]))
            && (forall n :: n in found && n !in order ==> n in m && m[n] == found[n])
  {
    if order != [] {
      var elements := EntryElements(tag, order, addresses);
      assert order[0] in order;
      assert elements[1..] == EntryElements(tag, order[1..], addresses);
      BlockRecords(tag, order[1..], addresses, found[order[0] := addresses[order[0]]]);
      assert order == [order[0]] + order[1..];
    }
  }

  lemma MergedRecords(doc: Doc, tag: string, order: seq<string>, addresses: map<string, string>)
    requires Covers(order, addresses)
    ensures EntriesOf(Merged(doc, tag, order, addresses), tag, map[]) == addresses
  {
    var over := Override(Cleared(doc, tag), tag, addresses.Keys);
    var entries := EntryElements(tag, order, addresses);
    ClearedIsNotOwned(doc, tag, addresses.Keys);
    EntriesAppend(over, BlockElements(tag, order, addresses), tag, map[]);
    OthersRecordNothing(over, tag, map[]);
    EntriesAppend([Open(tag)], entries + [Close(tag)], tag, map[]);
    assert BlockElements(tag, order, addresses) == [Open(tag)] + (entries + [Close(tag)]);
    EntriesAppend(entries, [Close(tag)], tag, map[]);
    BlockRecords(tag, order, addresses, map[]);
    assert EntriesOf(entries, tag, map[]) == addresses;
  }

  /** Reading a merged file back gives exactly the merged addresses. */
  lemma MergeReadsBack(text: string, op: Op)
    requires Reachable(text) && Merges(text, op)
    ensures ExistingEntries(After(text, op), op.tag) == op.addresses
  {
    var doc := ReachableShows(text);
    ApplyShows(text, doc, op);
    MergedShows(text, doc, op);
    RecordedEntries(After(text, op), DocAfter(doc, op), op.tag);
    MergedRecords(doc, op.tag, SortedNames(op.hosts), op.addresses);
  }

  // ---------- Merging again ----------

  lemma {:induction false} ClearedAppends(a: Doc, b: Doc, tag: string)
    ensures Cleared(a + b, tag) == Cleared(a, tag) + Cleared(b, tag)
  {
    if a == [] {
      assert a + b == b;
    } else {
      assert (a + b)[0] == a[0] && (a + b)[1..] == a[1..] + b;
      ClearedAppends(a[1..], b, tag);
      var first: Doc := if OwnedBy(a[0], tag) then [] else [Restored(a[0], tag)];
      assert first + (Cleared(a[1..], tag) + Cleared(b, tag)) == (first + Cleared(a[1..], tag)) + Cleared(b, tag);
    }
  }

  lemma {:induction false} OwnedIsCleared(doc: Doc, tag: string)
    requires forall e :: e in doc ==> OwnedBy(e, tag)
    ensures Cleared(doc, tag) == []
  {
    if doc != [] {
      assert doc[0] in doc;
      OwnedIsCleared(doc[1..], tag);
    }
  }

  lemma RestoringUndoesOverriding(e: Element, tag: string, names: set<string>)
    ensures Restored(Overridden(Restored(e, tag), tag, names), tag) == Restored(e, tag)
    ensures OwnedBy(Overridden(e, tag, names), tag) == OwnedBy(e, tag)
  {
  }

  /** Clearing a tag undoes what it disabled. */
  lemma {:induction false} ClearingUndoesOverride(base: Doc, tag: string, names: set<string>)
    requires forall e :: e in base ==> !OwnedBy(e, tag) && Restored(e, tag) == e
    ensures Cleared(Override(base, tag, names), tag) == base
  {
    if base != [] {
      var e, over := base[0], Override(base, tag, names);
      assert e in base;
      RestoringUndoesOverriding(e, tag, names);
      assert over[0] == Overridden(e, tag, names) && over[1..] == Override(base[1..], tag, names);
      ClearingUndoesOverride(base[1..], tag, names);
      assert base == [e] + base[1..];
    }
  }

  lemma ClearingUndoesMerging(doc: Doc, tag: string, order: seq<string>, addresses: map<string, string>)
    requires Covers(order, addresses)
    ensures Cleared(Merged(doc, tag, order, addresses), tag) == Cleared(doc, tag)
  {
    var base := Cleared(doc, tag);
    ClearedMembers(doc, tag);
    forall e | e in base ensures !OwnedBy(e, tag) && Restored(e, tag) == e {
      var d :| d in doc && !OwnedBy(d, tag) && e == Restored(d, tag);
    }
    ClearingUndoesOverride(base, tag, addresses.Keys);
    OwnedIsCleared(BlockElements(tag, order, addresses), tag);
    ClearedAppends(Override(base, tag, addresses.Keys), BlockElements(tag, order, addresses), tag);
  }

  /** Merging again with the same arguments leaves the text unchanged. */
  lemma MergeIsIdempotent(text: string, op: Op)
    requires Reachable(text) && Merges(text, op)
    ensures forall n :: n in SortedNames(op.hosts) ==> n in op.addresses
    ensures MergeText(After(text, op), op.tag, SortedNames(op.hosts), op.addresses, op.replace) == Some(After(text, op))
  {
    var doc := ReachableShows(text);
    var order := SortedNames(op.hosts);
    ApplyShows(text, doc, op);
    MergedShows(text, doc, op);
    ClearingUndoesMerging(doc, op.tag, order, op.addresses);
    MergeShows(After(text, op), DocAfter(doc, op), op.tag, order, op.addresses, op.replace);
  }

  /** Allocating the same hosts again, with all their addresses on record, changes none of them. */
  lemma AllocationRepeats(hosts: seq<string>, addresses: map<string, string>, again: map<string, string>)
    requires IsAllocation(hosts, addresses, again) && again.Keys == addresses.Keys == Elements(SortedNames(hosts))
    requires forall n :: n in addresses ==> Usable(addresses[n])
    requires Injective(addresses)
    ensures again == addresses
  {
    var names := SortedNames(hosts);
    SortedNamesAreNames(hosts);
    forall n | n in addresses ensures again[n] == addresses[n] {
      assert n in names;
      var i :| 0 <= i < |names| && names[i] == n;
      AllocationKeeps(hosts, addresses, again, i);
    }
  }

  /** Applying the same hosts again gives the same addresses, and so the same text. */
  lemma ApplyIsIdempotent(text: string, op: Op, again: Op)
    requires Reachable(text) && Merges(text, op)
    requires again.Apply? && again.tag == op.tag && again.hosts == op.hosts && again.replace == op.replace
    requires Fits(After(text, op), again)
    ensures again.addresses == op.addresses && After(After(text, op), again) == After(text, op)
  {
    var doc := ReachableShows(text);
    MergeReadsBack(text, op);
    AllocationIsClean(text, doc, op);
    forall n | n in op.addresses ensures Usable(op.addresses[n]) {
      SlotIsUsable(op.addresses[n]);
    }
    AllocationRepeats(op.hosts, op.addresses, again.addresses);
    MergeIsIdempotent(text, op);
  }

  lemma SlotIsUsable(ip: string)
    requires SlotIp(ip)
    ensures Usable(ip)
  {
    var slot: nat :| 1 <= slot <= SLOTS && ip == SlotAddress(slot);
    SlotAddressChars(slot);
  }
}
