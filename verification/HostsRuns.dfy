/** Runs of hosts-file commands, and what each of them keeps. */
module HostsRuns {
  import opened Util
  import opened HostNames
  import opened HostAllocation
  import opened HostsText
  import opened HostsDoc

  // ---------- Commands ----------

  /** `hosts` are the listener hosts of the configuration, `addresses` what allocation returned for them. */
  datatype Op =
    | Apply(tag: string, hosts: seq<string>, replace: bool, addresses: map<string, string>)
    | Remove(tag: string)

  ghost predicate Fits(text: string, op: Op) {
    && ValidTag(op.tag)
    && (op.Apply? ==>
          && IsAllocation(op.hosts, ExistingEntries(text, op.tag), op.addresses)
          && op.addresses.Keys == Elements(SortedNames(op.hosts)))
  }

  /** The merge a command asks for; without a host there is nothing to map, and a conflict may forbid it. */
  ghost function Outcome(text: string, op: Op): Option<string>
    requires Fits(text, op) && op.Apply?
  {
    if op.hosts == [] then None
    else MergeText(text, op.tag, SortedNames(op.hosts), op.addresses, op.replace)
  }

  /** The text left by a command; a failing one leaves it alone. */
  ghost function After(text: string, op: Op): string
    requires Fits(text, op)
  {
    if op.Remove? then RemoveText(text, op.tag)
    else
      match Outcome(text, op)
      case None => text
      case Some(merged) => merged
  }

  ghost predicate AllFit(text: string, ops: seq<Op>)
    decreases |ops|
  {
    ops == [] || (Fits(text, ops[0]) && AllFit(After(text, ops[0]), ops[1..]))
  }

  ghost function Final(text: string, ops: seq<Op>): string
    requires AllFit(text, ops)
    decreases |ops|
  {
    if ops == [] then text else Final(After(text, ops[0]), ops[1..])
  }

  /** A file this program never touched, without a stray carriage return at its very end. */
  ghost predicate Pristine(text: string) {
    && (HasCrLf(text) || !EndsInCr(text))
    && forall line :: line in LinesOf(text) ==> Plain(line)
  }

  /** A run of fitting commands leads from one text to another. */
  ghost predicate Leads(start: string, ops: seq<Op>, text: string) {
    AllFit(start, ops) && Final(start, ops) == text
  }

  ghost predicate Reachable(text: string) {
    exists start, ops :: Pristine(start) && Leads(start, ops, text)
  }

  /** An apply that changes the text. */
  ghost predicate Merges(text: string, op: Op) {
    op.Apply? && Fits(text, op) && Outcome(text, op).Some?
  }

  // ---------- The user's lines ----------

  function Core(doc: Doc): seq<string> {
    if doc == [] then [] else (if doc[0].User? then [doc[0].line] else []) + Core(doc[1..])
  }

  predicate Tight(doc: Doc) {
    Core(doc) == [] || Core(doc)[|Core(doc)| - 1] != []
  }

  lemma {:induction false} CoreAppends(a: Doc, b: Doc)
    ensures Core(a + b) == Core(a) + Core(b)
  {
    if a == [] {
      assert a + b == b;
    } else {
      assert (a + b)[0] == a[0] && (a + b)[1..] == a[1..] + b;
      CoreAppends(a[1..], b);
      var first := if a[0].User? then [a[0].line] else [];
      assert first + (Core(a[1..]) + Core(b)) == (first + Core(a[1..])) + Core(b);
    }
  }

  lemma {:induction false} ClearingKeepsCore(doc: Doc, tag: string)
    ensures Core(Cleared(doc, tag)) == Core(doc)
  {
    if doc != [] {
      var rest := Cleared(doc[1..], tag);
      ClearingKeepsCore(doc[1..], tag);
      if OwnedBy(doc[0], tag) {
        assert Cleared(doc, tag) == rest;
      } else {
        assert Cleared(doc, tag)[0] == Restored(doc[0], tag) && Cleared(doc, tag)[1..] == rest;
      }
    }
  }

  lemma {:induction false} OverridingKeepsCore(doc: Doc, tag: string, names: set<string>)
    ensures Core(Override(doc, tag, names)) == Core(doc)
  {
    if doc != [] {
      OverridingKeepsCore(doc[1..], tag, names);
      assert Override(doc, tag, names) == [Overridden(doc[0], tag, names)] + Override(doc[1..], tag, names);
    }
  }

  lemma {:induction false} NoUserNoCore(doc: Doc)
    requires forall e :: e in doc ==> !e.User?
    ensures Core(doc) == []
  {
    if doc != [] {
      assert doc[0] in doc;
      NoUserNoCore(doc[1..]);
    }
  }

  lemma MergingKeepsCore(doc: Doc, tag: string, order: seq<string>, addresses: map<string, string>)
    requires forall n :: n in order ==> n in addresses
    ensures Core(Merged(doc, tag, order, addresses)) == Core(doc)
  {
    ClearingKeepsCore(doc, tag);
    OverridingKeepsCore(Cleared(doc, tag), tag, addresses.Keys);
    CoreAppends(Override(Cleared(doc, tag), tag, addresses.Keys), BlockElements(tag, order, addresses));
    NoUserNoCore(BlockElements(tag, order, addresses));
  }

  lemma LastUserIsLast(before: Doc, last: Element)
    requires last.User?
    ensures Core(before + [last]) == Core(before) + [last.line]
  {
    CoreAppends(before, [last]);
    assert Core([]) == [] && [last][1..] == [];
    assert Core([last]) == [last.line] + [];
  }

  lemma LastLineIsSolid(doc: Doc, newline: string)
    requires Tight(doc) && AllGood(doc, newline) && doc != []
    ensures Shown(doc[|doc| - 1]) != []
  {
    var last := doc[|doc| - 1];
    assert last in doc;
    ElementIsStable(last, newline);
    if last.User? {
      LastUserIsLast(doc[..|doc| - 1], last);
      assert doc == doc[..|doc| - 1] + [last];
    }
  }

  // ---------- Structure ----------

  lemma {:induction false} ClearedMembers(doc: Doc, tag: string)
    ensures forall e :: e in Cleared(doc, tag) ==> exists d :: d in doc && !OwnedBy(d, tag) && e == Restored(d, tag)
    ensures forall d :: d in doc && !OwnedBy(d, tag) ==> Restored(d, tag) in Cleared(doc, tag)
  {
    if doc != [] {
      ClearedMembers(doc[1..], tag);
      forall e | e in Cleared(doc, tag)
        ensures exists d :: d in doc && !OwnedBy(d, tag) && e == Restored(d, tag)
      {
        if e in Cleared(doc[1..], tag) {
          var d :| d in doc[1..] && !OwnedBy(d, tag) && e == Restored(d, tag);
          assert d in doc;
        } else {
          assert doc[0] in doc && !OwnedBy(doc[0], tag) && e == Restored(doc[0], tag);
        }
      }
      forall d | d in doc && !OwnedBy(d, tag) ensures Restored(d, tag) in Cleared(doc, tag) {
        assert d == doc[0] || d in doc[1..];
      }
    }
  }

  lemma ClearingKeepsGood(doc: Doc, tag: string, newline: string)
    requires AllGood(doc, newline)
    ensures AllGood(Cleared(doc, tag), newline)
  {
    ClearedMembers(doc, tag);
  }

  lemma OverridingKeepsGood(doc: Doc, tag: string, names: set<string>, newline: string)
    requires AllGood(doc, newline) && ValidTag(tag)
    ensures AllGood(Override(doc, tag, names), newline)
  {
    var over := Override(doc, tag, names);
    forall e | e in over ensures Good(e, newline) {
      var i :| 0 <= i < |over| && over[i] == e;
      assert doc[i] in doc;
      OverriddenIsGood(doc[i], tag, names, newline);
    }
  }

  lemma OverriddenIsGood(e: Element, tag: string, names: set<string>, newline: string)
    requires Good(e, newline) && ValidTag(tag)
    ensures Good(Overridden(e, tag, names), newline)
  {
    if e.User? && Active(e, names) {
      EmptyDoesNotConflict(names);
    }
  }

  lemma EmptyDoesNotConflict(names: set<string>)
    ensures !Conflicting([], names)
  {
    assert Content([]) == [] && Words([]) == [];
  }

  function OwnerAfter(owner: Option<string>, tag: string): Option<string> {
    if owner == Some(tag) then None else owner
  }

  lemma {:induction false} ClearingKeepsBrackets(doc: Doc, tag: string, owner: Option<string>)
    requires Bracketed(doc, owner)
    ensures Bracketed(Cleared(doc, tag), OwnerAfter(owner, tag))
  {
    if doc != [] {
      var e := doc[0];
      var next := match e case Open(t) => Some(t) case Close(_) => None case _ => owner;
      ClearingKeepsBrackets(doc[1..], tag, next);
      if !OwnedBy(e, tag) {
        assert Cleared(doc, tag)[0] == Restored(e, tag) && Cleared(doc, tag)[1..] == Cleared(doc[1..], tag);
      } else {
        assert Cleared(doc, tag) == Cleared(doc[1..], tag);
      }
    }
  }

  lemma {:induction false} OverridingKeepsBrackets(doc: Doc, tag: string, names: set<string>, owner: Option<string>)
    requires Bracketed(doc, owner)
    ensures Bracketed(Override(doc, tag, names), owner)
  {
    if doc != [] {
      var e := doc[0];
      var next := match e case Open(t) => Some(t) case Close(_) => None case _ => owner;
      OverridingKeepsBrackets(doc[1..], tag, names, next);
      assert Override(doc, tag, names)[1..] == Override(doc[1..], tag, names);
    }
  }

  lemma {:induction false} BracketsAppend(a: Doc, b: Doc, owner: Option<string>)
    requires Bracketed(a, owner) && Bracketed(b, None)
    ensures Bracketed(a + b, owner)
  {
    if a == [] {
      assert a + b == b;
    } else {
      var e := a[0];
      var next := match e case Open(t) => Some(t) case Close(_) => None case _ => owner;
      BracketsAppend(a[1..], b, next);
      assert (a + b)[0] == e && (a + b)[1..] == a[1..] + b;
    }
  }

  lemma {:induction false} EntriesAreBracketed(entries: Doc, tag: string)
    requires forall e :: e in entries ==> e.Entry? && e.tag == tag
    ensures Bracketed(entries + [Close(tag)], Some(tag))
  {
    var all := entries + [Close(tag)];
    if entries != [] {
      assert entries[0] in entries;
      EntriesAreBracketed(entries[1..], tag);
      assert all[0] == entries[0] && all[1..] == entries[1..] + [Close(tag)];
    } else {
      assert all == [Close(tag)] && all[1..] == [];
    }
  }

  lemma BlockIsBracketed(tag: string, order: seq<string>, addresses: map<string, string>)
    requires forall n :: n in order ==> n in addresses
    ensures Bracketed(BlockElements(tag, order, addresses), None)
  {
    EntriesAreBracketed(EntryElements(tag, order, addresses), tag);
    var block := BlockElements(tag, order, addresses);
    assert block[0] == Open(tag) && block[1..] == EntryElements(tag, order, addresses) + [Close(tag)];
  }

  // ---------- Blank lines at the end ----------

  lemma {:induction false} UnblockBlank(lines: seq<string>, tag: string, inside: bool)
    ensures Unblock(lines + [[]], tag, inside) == Unblock(lines, tag, inside)
         || Unblock(lines + [[]], tag, inside) == Unblock(lines, tag, inside) + [[]]
  {
    var all := lines + [[]];
    if lines == [] {
      assert all == [[]] && all[1..] == [];
      assert Trim([]) == [] && Begin(tag)[0] == '#' && End(tag)[0] == '#' && DisabledPrefix(tag)[0] == '#';
    } else {
      assert all[0] == lines[0] && all[1..] == lines[1..] + [[]];
      var rest := lines[1..];
      if Trim(lines[0]) == Begin(tag) {
        UnblockBlank(rest, tag, true);
      } else if Trim(lines[0]) == End(tag) {
        UnblockBlank(rest, tag, false);
      } else {
        UnblockBlank(rest, tag, inside);
      }
    }
  }

  /** Removing a block does not see blank lines at the end. */
  lemma {:induction false} RemovingIgnoresBlank(lines: seq<string>, tag: string)
    ensures RemoveLines(DropBlank(lines), tag) == RemoveLines(lines, tag)
  {
    if lines != [] && lines[|lines| - 1] == [] {
      var shorter := lines[..|lines| - 1];
      RemovingIgnoresBlank(shorter, tag);
      assert lines == shorter + [[]];
      UnblockBlank(shorter, tag, false);
      var kept := Unblock(shorter, tag, false);
      assert (kept + [[]])[..|kept|] == kept;
    }
  }

  lemma {:induction false} EntriesBlank(lines: seq<string>, tag: string, inside: bool, found: map<string, string>)
    ensures Entries(lines + [[]], tag, inside, found) == Entries(lines, tag, inside, found)
  {
    var all := lines + [[]];
    if lines == [] {
      assert all == [[]] && all[1..] == [];
      assert Trim([]) == [] && Begin(tag)[0] == '#' && End(tag)[0] == '#';
      assert Words([]) == [];
    } else {
      assert all[0] == lines[0] && all[1..] == lines[1..] + [[]];
      var rest, line := lines[1..], Trim(lines[0]);
      if line == Begin(tag) {
        EntriesBlank(rest, tag, true, found);
      } else if line == End(tag) {
        EntriesBlank(rest, tag, false, found);
      } else {
        EntriesBlank(rest, tag, inside, if inside then Recorded(line, found) else found);
      }
    }
  }

  lemma {:induction false} ReadingIgnoresBlank(lines: seq<string>, tag: string)
    ensures Entries(DropBlank(lines), tag, false, map[]) == Entries(lines, tag, false, map[])
  {
    if lines != [] && lines[|lines| - 1] == [] {
      var shorter := lines[..|lines| - 1];
      ReadingIgnoresBlank(shorter, tag);
      assert lines == shorter + [[]];
      EntriesBlank(shorter, tag, false, map[]);
    }
  }
}
