/** The text operations, as operations on the structure a text shows. */
module HostsSimulation {
  import opened Util
  import opened HostNames
  import opened HostAllocation
  import opened HostsText
  import opened HostsDoc
  import opened HostsRuns

  // ---------- Texts and the structures they show ----------

  /** The text shows the structure, up to blank lines at the end. */
  ghost predicate Represents(text: string, doc: Doc) {
    && DropBlank(LinesOf(text)) == Lines(doc)
    && AllGood(doc, NewlineOf(text)) && Bracketed(doc, None) && Tight(doc)
  }

  /** The text is exactly what this program writes for the structure. */
  ghost predicate Written(text: string, doc: Doc) {
    text == Unlines(Lines(doc), NewlineOf(text))
  }

  function UserElements(lines: seq<string>): (r: Doc)
    ensures |r| == |lines| && forall i :: 0 <= i < |lines| ==> r[i] == User(None, lines[i])
  {
    seq(|lines|, i requires 0 <= i < |lines| => User(None, lines[i]))
  }

  lemma {:induction false} UsersAreBracketed(lines: seq<string>)
    ensures Bracketed(UserElements(lines), None) && Core(UserElements(lines)) == lines
  {
    if lines != [] {
      UsersAreBracketed(lines[1..]);
      assert UserElements(lines)[1..] == UserElements(lines[1..]);
    }
  }

  /** An untouched file shows its own lines. */
  lemma PristineShowsItself(text: string)
    requires Pristine(text)
    ensures Represents(text, UserElements(DropBlank(LinesOf(text))))
    ensures Core(UserElements(DropBlank(LinesOf(text)))) == DropBlank(LinesOf(text))
  {
    var lines := DropBlank(LinesOf(text));
    var doc := UserElements(lines);
    UsersAreBracketed(lines);
    LinesAreStable(text);
    assert forall line :: line in lines ==> line in LinesOf(text);
    PlainUsersAreGood(lines, NewlineOf(text));
  }

  lemma PlainUsersAreGood(lines: seq<string>, newline: string)
    requires AllStable(lines, newline) && forall line :: line in lines ==> Plain(line)
    ensures AllGood(UserElements(lines), newline)
  {
    var doc := UserElements(lines);
    forall e | e in doc ensures Good(e, newline) {
      var i :| 0 <= i < |doc| && doc[i] == e;
      assert lines[i] in lines;
    }
  }

  lemma ShownLinesAreStable(doc: Doc, newline: string)
    requires AllGood(doc, newline)
    ensures AllStable(Lines(doc), newline)
  {
    forall i | 0 <= i < |doc| ensures Stable(Lines(doc)[i], newline) {
      ElementIsStable(doc[i], newline);
    }
  }

  lemma TightLines(doc: Doc, newline: string)
    requires AllGood(doc, newline) && Tight(doc)
    ensures DropBlank(Lines(doc)) == Lines(doc)
  {
    if doc != [] {
      LastLineIsSolid(doc, newline);
    }
  }

  /** Writing a structure gives a text that shows it. */
  lemma WritingRepresents(doc: Doc, newline: string)
    requires newline in {LF, CRLF} && AllGood(doc, newline) && Bracketed(doc, None) && Tight(doc)
    ensures var text := Unlines(Lines(doc), newline);
            Represents(text, doc) && Written(text, doc) && LinesOf(text) == Lines(doc) && (doc != [] ==> NewlineOf(text) == newline)
  {
    ShownLinesAreStable(doc, newline);
    LinesOfUnlines(Lines(doc), newline);
    NewlineOfUnlines(Lines(doc), newline);
    TightLines(doc, newline);
  }

  // ---------- The operations on what texts show ----------

  lemma RemoveShows(text: string, doc: Doc, tag: string)
    requires Represents(text, doc) && ValidTag(tag)
    ensures RemoveLines(LinesOf(text), tag) == Lines(Cleared(doc, tag))
    ensures AllGood(Cleared(doc, tag), NewlineOf(text)) && Bracketed(Cleared(doc, tag), None) && Tight(Cleared(doc, tag))
    ensures Represents(RemoveText(text, tag), Cleared(doc, tag)) && Written(RemoveText(text, tag), Cleared(doc, tag))
    ensures LinesOf(RemoveText(text, tag)) == Lines(Cleared(doc, tag))
    ensures Cleared(doc, tag) != [] ==> NewlineOf(RemoveText(text, tag)) == NewlineOf(text)
  {
    var newline := NewlineOf(text);
    RemovingIgnoresBlank(LinesOf(text), tag);
    UnblockClears(doc, tag, None, newline);
    ClearingKeepsGood(doc, tag, newline);
    ClearingKeepsCore(doc, tag);
    ClearingKeepsBrackets(doc, tag, None);
    TightLines(doc, newline);
    TightLines(Cleared(doc, tag), newline);
    WritingRepresents(Cleared(doc, tag), newline);
  }

  /** The order in which the map's names are walked. */
  predicate Covers(order: seq<string>, addresses: map<string, string>) {
    addresses.Keys == Elements(order)
  }

  ghost predicate CleanAddresses(addresses: map<string, string>) {
    forall n :: n in addresses ==> MappableName(n) && SlotIp(addresses[n])
  }

  lemma BlockIsGood(tag: string, order: seq<string>, addresses: map<string, string>, newline: string)
    requires ValidTag(tag) && Covers(order, addresses) && CleanAddresses(addresses)
    ensures AllGood(BlockElements(tag, order, addresses), newline)
  {
    forall e | e in BlockElements(tag, order, addresses) ensures Good(e, newline) {
    }
  }

  lemma {:induction false} LinesAppend(a: Doc, b: Doc)
    ensures Lines(a + b) == Lines(a) + Lines(b)
  {
  }

  lemma MergedIsSound(doc: Doc, tag: string, order: seq<string>, addresses: map<string, string>, newline: string)
    requires AllGood(doc, newline) && Bracketed(doc, None) && Tight(doc)
    requires ValidTag(tag) && Covers(order, addresses) && CleanAddresses(addresses)
    ensures var d := Merged(doc, tag, order, addresses); AllGood(d, newline) && Bracketed(d, None) && Tight(d) && d != []
  {
    var base := Cleared(doc, tag);
    ClearingKeepsGood(doc, tag, newline);
    ClearingKeepsBrackets(doc, tag, None);
    OverridingKeepsGood(base, tag, addresses.Keys, newline);
    OverridingKeepsBrackets(base, tag, addresses.Keys, None);
    BlockIsGood(tag, order, addresses, newline);
    BlockIsBracketed(tag, order, addresses);
    BracketsAppend(Override(base, tag, addresses.Keys), BlockElements(tag, order, addresses), None);
    MergingKeepsCore(doc, tag, order, addresses);
  }

  ghost predicate Blocked(doc: Doc, tag: string, names: set<string>) {
    exists e :: e in Cleared(doc, tag) && Active(e, names)
  }

  /** Merging text is merging structure, and fails exactly when a line in force maps one of the names. */
  lemma MergeShows(text: string, doc: Doc, tag: string, order: seq<string>, addresses: map<string, string>, replace: bool)
    requires Represents(text, doc) && ValidTag(tag) && Covers(order, addresses) && CleanAddresses(addresses)
    ensures MergeText(text, tag, order, addresses, replace) ==
            if Blocked(doc, tag, addresses.Keys) && !replace then None
            else Some(Unlines(Lines(Merged(doc, tag, order, addresses)), NewlineOf(text)))
  {
    var base, newline := Cleared(doc, tag), NewlineOf(text);
    RemoveShows(text, doc, tag);
    OverrideDisables(base, tag, addresses.Keys, newline);
    var over := Override(base, tag, addresses.Keys);
    OverridingKeepsGood(base, tag, addresses.Keys, newline);
    OverridingKeepsCore(base, tag, addresses.Keys);
    if over != [] {
      LastLineIsSolid(over, newline);
    }
    assert WithoutLastBlank(Lines(over)) == Lines(over);
    BlockShows(tag, order, addresses);
    LinesAppend(over, BlockElements(tag, order, addresses));
  }

  // ---------- What a tag's block records ----------

  /** What reading an element of the tag's block adds; a disabled entry records nothing of use. */
  function Noted(e: Element, found: map<string, string>): map<string, string>
    requires e.Entry?
  {
    match e.mark
    case None => found[e.name := e.ip]
    case Some(t) => found[e.ip := MarkWord(t)]
  }

  function MarkWord(tag: string): string {
    "#azbridge-disabled[" + tag + "]:"
  }

  function EntriesOf(doc: Doc, tag: string, found: map<string, string>): map<string, string> {
    if doc == [] then found
    else EntriesOf(doc[1..], tag, if doc[0].Entry? && doc[0].tag == tag then Noted(doc[0], found) else found)
  }

  lemma MarkWordIsWord(tag: string)
    requires ValidTag(tag)
    ensures Word(MarkWord(tag)) && !Usable(MarkWord(tag)) && DisabledPrefix(tag) == MarkWord(tag) + " "
  {
    var w := MarkWord(tag);
    assert w[0] == '#' && PREFIX[0] == '1';
    forall i | 0 <= i < |w| ensures !IsSpace(w[i]) {
      if |DISABLED| <= i < |DISABLED| + |tag| {
        assert w[i] == tag[i - |DISABLED|];
      }
    }
  }

  lemma WordsAfter(a: string, rest: string)
    requires Word(a)
    ensures Words(a + " " + rest) == [a] + Words(rest)
  {
    var s := a + " " + rest;
    assert forall i :: 0 <= i < |a| ==> s[i] == a[i];
    assert s[|a|] == ' ';
    WordLengthIs(s, |a|);
    assert s[..|a|] == a && s[|a|..] == " " + rest && (" " + rest)[1..] == rest;
  }

  lemma RecordedWords(line: string, found: map<string, string>, words: seq<string>)
    requires Words(line) == words && |words| >= 2
    ensures Recorded(line, found) == found[NormalizeHostname(words[1]) := words[0]]
  {
  }

  lemma DisabledWords(tag: string, ip: string, name: string)
    requires ValidTag(tag) && Word(ip) && Word(name)
    ensures var shown := DisabledPrefix(tag) + EntryLine(ip, name);
            Trim(shown) == shown && Words(shown) == [MarkWord(tag), ip, name]
  {
    var line := EntryLine(ip, name);
    var shown := DisabledPrefix(tag) + line;
    MarkWordIsWord(tag);
    assert shown == MarkWord(tag) + " " + line;
    assert shown[|shown| - 1] == name[|name| - 1] && shown[0] == '#';
    TrimOfTight(shown);
    WordsAfter(MarkWord(tag), line);
    WordsOfPair(ip, name);
  }

  lemma EntryIsNoted(e: Element, newline: string, found: map<string, string>)
    requires e.Entry? && Good(e, newline)
    ensures Recorded(Trim(Shown(e)), found) == Noted(e, found)
  {
    EntryChars(e.ip, e.name);
    match e.mark
    case None =>
      WordsOfPair(e.ip, e.name);
      RecordedWords(Shown(e), found, [e.ip, e.name]);
    case Some(t) =>
      DisabledWords(t, e.ip, e.name);
      RecordedWords(Shown(e), found, [MarkWord(t), e.ip, e.name]);
      AddressIsNoName(e.ip);
  }

  lemma EntriesFirst(line: string, rest: seq<string>, tag: string, inside: bool, found: map<string, string>)
    ensures Entries([line] + rest, tag, inside, found) ==
            if Trim(line) == Begin(tag) then Entries(rest, tag, true, found)
            else if Trim(line) == End(tag) then Entries(rest, tag, false, found)
            else Entries(rest, tag, inside, if inside then Recorded(Trim(line), found) else found)
  {
    var lines := [line] + rest;
    assert lines[0] == line && lines[1..] == rest;
  }

  /** Reading the text's block is reading the structure's entries. */
  lemma {:induction false} EntriesAreRead(doc: Doc, tag: string, owner: Option<string>, newline: string, found: map<string, string>)
    requires AllGood(doc, newline) && Bracketed(doc, owner) && ValidTag(tag)
    ensures Entries(Lines(doc), tag, owner == Some(tag), found) == EntriesOf(doc, tag, found)
  {
    if doc != [] {
      var e, rest := doc[0], doc[1..];
      assert e in doc;
      assert AllGood(rest, newline);
      ElementReads(e, tag, newline);
      var next := match e case Open(t) => Some(t) case Close(_) => None case _ => owner;
      var found' := if e.Entry? && e.tag == tag then Noted(e, found) else found;
      EntriesAreRead(rest, tag, next, newline, found');
      EntriesFirst(Shown(e), Lines(rest), tag, owner == Some(tag), found);
      assert Lines(doc) == [Shown(e)] + Lines(rest);
      if e.Entry? {
        EntryIsNoted(e, newline, found);
      }
    }
  }

  lemma RecordedEntries(text: string, doc: Doc, tag: string)
    requires Represents(text, doc) && ValidTag(tag)
    ensures ExistingEntries(text, tag) == EntriesOf(doc, tag, map[])
  {
    ReadingIgnoresBlank(LinesOf(text), tag);
    EntriesAreRead(doc, tag, None, NewlineOf(text), map[]);
  }

  /** A usable record comes from an entry of the tag that is in force. */
  lemma {:induction false} UsableRecordsAreEntries(doc: Doc, tag: string, newline: string, found: map<string, string>, n: string)
    requires AllGood(doc, newline) && n in EntriesOf(doc, tag, found) && Usable(EntriesOf(doc, tag, found)[n])
    ensures (n in found && found[n] == EntriesOf(doc, tag, found)[n])
         || Entry(tag, None, EntriesOf(doc, tag, found)[n], n) in doc
  {
    if doc != [] {
      var e, rest := doc[0], doc[1..];
      assert e in doc;
      assert AllGood(rest, newline);
      var found' := if e.Entry? && e.tag == tag then Noted(e, found) else found;
      UsableRecordsAreEntries(rest, tag, newline, found', n);
      if e.Entry? && e.tag == tag && e.mark.Some? {
        MarkWordIsWord(e.mark.value);
      }
    }
  }

  /** Entries of one tag agree on names exactly when they agree on addresses. */
  ghost predicate Sound(doc: Doc) {
    forall d, e :: d in doc && e in doc && d.Entry? && e.Entry? && d.tag == e.tag ==> (d.name == e.name <==> d.ip == e.ip)
  }

  lemma NotedKeeps(e: Element, tag: string, found: map<string, string>, n: string, ip: string)
    requires e.Entry? && e.ip != n
    requires e.name == n ==> e.ip == ip
    ensures n in found && found[n] == ip ==> n in Noted(e, found) && Noted(e, found)[n] == ip
    ensures e.mark.None? && e.name == n ==> n in Noted(e, found) && Noted(e, found)[n] == ip
  {
  }

  lemma AddressIsNotName(ip: string, n: string)
    requires SlotIp(ip) && MappableName(n)
    ensures ip != n
  {
    AddressIsNoName(ip);
  }

  /** An entry in force is recorded. */
  lemma {:induction false} EntryIsRecorded(doc: Doc, tag: string, newline: string, found: map<string, string>, n: string, ip: string)
    requires AllGood(doc, newline) && MappableName(n)
    requires Entry(tag, None, ip, n) in doc || (n in found && found[n] == ip)
    requires forall e :: e in doc && e.Entry? && e.tag == tag && e.name == n ==> e.ip == ip
    ensures n in EntriesOf(doc, tag, found) && EntriesOf(doc, tag, found)[n] == ip
  {
    if doc != [] {
      var e, rest := doc[0], doc[1..];
      assert e in doc && Good(e, newline);
      assert AllGood(rest, newline);
      if e.Entry? && e.tag == tag {
        AddressIsNotName(e.ip, n);
        NotedKeeps(e, tag, found, n, ip);
        EntryIsRecorded(rest, tag, newline, Noted(e, found), n, ip);
      } else {
        EntryIsRecorded(rest, tag, newline, found, n, ip);
      }
    }
  }

  // ---------- Allocations stay clean ----------

  lemma AllocationIsClean(text: string, doc: Doc, op: Op)
    requires Represents(text, doc) && op.Apply? && Fits(text, op)
    ensures CleanAddresses(op.addresses) && Covers(SortedNames(op.hosts), op.addresses)
    ensures forall a, b :: a in op.addresses && b in op.addresses && a != b ==> op.addresses[a] != op.addresses[b]
  {
    var existing := ExistingEntries(text, op.tag);
    AllocationIsSound(op.hosts, existing, op.addresses);
    SortedNamesAreNames(op.hosts);
    forall n | n in op.addresses ensures MappableName(n) && SlotIp(op.addresses[n]) {
      assert n in SortedNames(op.hosts);
      if n in existing && Usable(existing[n]) && op.addresses[n] == existing[n] {
        UsableRecordIsSlot(text, doc, op.tag, n);
      }
    }
  }

  lemma UsableRecordIsSlot(text: string, doc: Doc, tag: string, n: string)
    requires Represents(text, doc) && ValidTag(tag)
    requires n in ExistingEntries(text, tag) && Usable(ExistingEntries(text, tag)[n])
    ensures SlotIp(ExistingEntries(text, tag)[n])
  {
    RecordedEntries(text, doc, tag);
    UsableRecordsAreEntries(doc, tag, NewlineOf(text), map[], n);
    assert Good(Entry(tag, None, ExistingEntries(text, tag)[n], n), NewlineOf(text));
  }
}
