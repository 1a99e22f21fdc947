/**
  Files that end in a carriage return without having CR LF endings: the one condition under which
  undoing every apply does not give the original back.
*/
module HostsStrayReturn {
  import opened Util
  import opened HostNames
  import opened HostAllocation
  import opened HostsText
  import opened HostsDoc
  import opened HostsRuns
  import opened HostsSimulation
  import opened HostsTheorems

  ghost predicate AllPlain(lines: seq<string>) {
    forall i :: 0 <= i < |lines| ==> Plain(lines[i])
  }

  // ---------- Lines that lose a carriage return ----------

  function ChompAll(lines: seq<string>): (r: seq<string>)
    ensures |r| == |lines| && forall i :: 0 <= i < |lines| ==> r[i] == Chomp(lines[i])
  {
    seq(|lines|, i requires 0 <= i < |lines| => Chomp(lines[i]))
  }

  predicate NoFeeds(lines: seq<string>) {
    forall i :: 0 <= i < |lines| ==> '\n' !in lines[i]
  }

  /** Whatever is written with LF endings is read back without one carriage return per line. */
  lemma {:induction false} LinesOfWritten(lines: seq<string>)
    requires NoFeeds(lines)
    ensures LinesOf(Unlines(lines, LF)) == ChompAll(lines)
  {
    if lines != [] {
      LinesOfWritten(lines[1..]);
      assert '\n' !in lines[0];
      FirstLine(lines[0], Unlines(lines[1..], LF));
      assert Unlines(lines, LF) == lines[0] + ['\n'] + Unlines(lines[1..], LF);
      assert ChompAll(lines) == [Chomp(lines[0])] + ChompAll(lines[1..]);
    }
  }

  predicate LastReturns(lines: seq<string>) {
    lines != [] && EndsInCr(lines[|lines| - 1]) && forall i :: 0 <= i < |lines| - 1 ==> !EndsInCr(lines[i])
  }

  lemma FirstLineHasNoReturn(s: string)
    requires !HasCrLf(s) && LineEnd(s) < |s|
    ensures !EndsInCr(s[..LineEnd(s)])
  {
    var i := LineEnd(s);
    assert i > 0 ==> s[..i][i - 1] == s[i - 1] && s[i - 1 + 1] == '\n';
  }

  lemma RestEndsInReturn(s: string)
    requires !HasCrLf(s) && EndsInCr(s) && LineEnd(s) < |s|
    ensures var rest := s[LineEnd(s) + 1..]; !HasCrLf(rest) && EndsInCr(rest)
  {
    var rest := s[LineEnd(s) + 1..];
    assert s[|s| - 1] == '\r' && rest != [] && rest[|rest| - 1] == '\r';
    if HasCrLf(rest) {
      SuffixHasCrLf(s, LineEnd(s) + 1);
    }
  }

  lemma LastReturnsGrows(line: string, lines: seq<string>)
    requires LastReturns(lines) && !EndsInCr(line)
    ensures LastReturns([line] + lines)
  {
  }

  /** In such a file only the last line ends in a carriage return. */
  lemma {:induction false} OnlyLastReturns(s: string)
    requires !HasCrLf(s) && EndsInCr(s)
    ensures LastReturns(LinesOf(s))
    decreases |s|
  {
    var i := LineEnd(s);
    if i < |s| {
      FirstLineHasNoReturn(s);
      RestEndsInReturn(s);
      OnlyLastReturns(s[i + 1..]);
      LastReturnsGrows(s[..i], LinesOf(s[i + 1..]));
      assert LinesOf(s) == [s[..i]] + LinesOf(s[i + 1..]);
    }
  }

  lemma {:induction false} SolidToIgnoresReturn(l: string, i: nat, j: nat)
    requires l != [] && i <= j <= |l| - 1
    ensures SolidTo(l, i, j) == SolidTo(l[..|l| - 1], i, j)
    decreases j
  {
    if i < j && IsSpace(l[j - 1]) {
      SolidToIgnoresReturn(l, i, j - 1);
    }
  }

  lemma {:induction false} SolidFromIgnoresReturn(l: string, i: nat)
    requires EndsInCr(l) && i <= |l| - 1
    ensures SolidFrom(l[..|l| - 1], i) == if SolidFrom(l, i) == |l| then |l| - 1 else SolidFrom(l, i)
    decreases |l| - i
  {
    if i < |l| - 1 && IsSpace(l[i]) {
      SolidFromIgnoresReturn(l, i + 1);
    }
  }

  lemma TrimIgnoresReturn(l: string)
    requires EndsInCr(l)
    ensures Trim(Chomp(l)) == Trim(l)
  {
    var c, i := Chomp(l), SolidFrom(l, 0);
    SolidFromIgnoresReturn(l, 0);
    if i < |l| {
      SolidToIgnoresReturn(l, i, |l| - 1);
      var j := SolidTo(c, i, |c|);
      assert SolidTo(l, i, |l|) == SolidTo(l, i, |l| - 1) == j;
      assert c[i..j] == l[i..j];
    }
  }

  lemma ChompedIsPlain(l: string)
    requires Plain(l)
    ensures Plain(Chomp(l))
  {
    if EndsInCr(l) {
      TrimIgnoresReturn(l);
      assert Chomp(l) <= l;
      assert forall tag :: DisabledPrefix(tag) <= Chomp(l) ==> DisabledPrefix(tag) <= l;
    }
  }

  // ---------- The file after one apply ----------

  /** The element as it is read back. */
  function Chomped(e: Element): Element {
    match e
    case User(mark, line) => User(mark, Chomp(line))
    case _ => e
  }

  function ChompDoc(doc: Doc): (r: Doc)
    ensures |r| == |doc| && forall i :: 0 <= i < |doc| ==> r[i] == Chomped(doc[i])
  {
    seq(|doc|, i requires 0 <= i < |doc| => Chomped(doc[i]))
  }

  /** A good element whose disabled line, if it is one, keeps something when it loses a return. */
  ghost predicate Solid(e: Element) {
    Good(e, CRLF) && (e.User? && e.mark.Some? ==> Chomp(e.line) != [])
  }

  lemma ChompedShows(e: Element)
    requires Solid(e)
    ensures Chomp(Shown(e)) == Shown(Chomped(e)) && Good(Chomped(e), CRLF) && '\n' !in Shown(e)
  {
    ElementIsStable(e, CRLF);
    match e
    case User(mark, line) =>
      ChompedIsPlain(line);
      assert '\n' !in Chomp(line);
      if mark.Some? {
        ChompConcat(DisabledPrefix(mark.value), line);
      }
    case _ =>
  }

  lemma ChompConcat(a: string, b: string)
    requires b != []
    ensures Chomp(a + b) == a + Chomp(b)
  {
  }

  /** What is read back of a file written for these elements. */
  lemma WrittenIsChomped(doc: Doc)
    requires forall e :: e in doc ==> Solid(e)
    ensures LinesOf(Unlines(Lines(doc), LF)) == Lines(ChompDoc(doc)) && AllGood(ChompDoc(doc), CRLF)
  {
    forall i | 0 <= i < |doc|
      ensures '\n' !in Lines(doc)[i] && Chomp(Lines(doc)[i]) == Lines(ChompDoc(doc))[i] && Good(ChompDoc(doc)[i], CRLF)
    {
      assert doc[i] in doc;
      ChompedShows(doc[i]);
    }
    LinesOfWritten(Lines(doc));
    assert ChompAll(Lines(doc)) == Lines(ChompDoc(doc));
  }

  lemma {:induction false} UsersBracketed(doc: Doc)
    requires forall e :: e in doc ==> e.User?
    ensures Bracketed(doc, None)
  {
    if doc != [] {
      assert doc[0] in doc;
      UsersBracketed(doc[1..]);
    }
  }

  /** Clearing the tag gives the lines back as they were read. */
  lemma {:induction false} ClearingChomped(lines: seq<string>, tag: string, names: set<string>)
    ensures Cleared(ChompDoc(Override(UserElements(lines), tag, names)), tag) == UserElements(ChompAll(lines))
  {
    var doc := ChompDoc(Override(UserElements(lines), tag, names));
    if lines != [] {
      ClearingChomped(lines[1..], tag, names);
      var rest := ChompDoc(Override(UserElements(lines[1..]), tag, names));
      assert doc[1..] == rest;
      assert Restored(doc[0], tag) == User(None, Chomp(lines[0]));
      assert UserElements(ChompAll(lines)) == [User(None, Chomp(lines[0]))] + UserElements(ChompAll(lines[1..]));
    }
  }

  lemma BlankReturnDoesNotConflict(line: string, names: set<string>)
    requires Chomp(line) == []
    ensures !Conflicting(line, names)
  {
    assert Content([]) == [] && Words([]) == [];
    if line != [] {
      assert line == ['\r'] && line[1..] == [];
      assert Content(line) == ['\r'] + [];
      assert Words(['\r']) == Words(['\r'][1..]);
    }
  }

  lemma OverriddenUserIsSolid(line: string, tag: string, names: set<string>)
    requires Plain(line) && '\n' !in line && ValidTag(tag)
    ensures Solid(Overridden(User(None, line), tag, names)) && Overridden(User(None, line), tag, names).User?
  {
    if Chomp(line) == [] {
      BlankReturnDoesNotConflict(line, names);
    }
  }

  lemma OverriddenUsersAreSolid(lines: seq<string>, tag: string, names: set<string>)
    requires AllPlain(lines) && NoFeeds(lines) && ValidTag(tag)
    ensures forall e :: e in Override(UserElements(lines), tag, names) ==> Solid(e) && e.User?
  {
    var over := Override(UserElements(lines), tag, names);
    forall e | e in over ensures Solid(e) && e.User? {
      var i :| 0 <= i < |over| && over[i] == e;
      OverriddenUserIsSolid(lines[i], tag, names);
    }
  }

  lemma BlockIsSolid(tag: string, order: seq<string>, addresses: map<string, string>)
    requires ValidTag(tag) && Covers(order, addresses) && CleanAddresses(addresses)
    ensures forall e :: e in BlockElements(tag, order, addresses) ==> Solid(e) && !e.User?
  {
    BlockIsGood(tag, order, addresses, CRLF);
  }

  lemma ChompSkipsBlock(over: Doc, block: Doc)
    requires forall e :: e in block ==> !e.User?
    ensures ChompDoc(over + block) == ChompDoc(over) + block
  {
    forall i | 0 <= i < |block| ensures Chomped(block[i]) == block[i] {
      assert block[i] in block;
    }
  }

  lemma SolidAppends(over: Doc, block: Doc)
    requires forall e :: e in over ==> Solid(e)
    requires forall e :: e in block ==> Solid(e)
    ensures forall e :: e in over + block ==> Solid(e)
  {
  }

  /** A file of user lines and one block, read back. */
  lemma UsersAndBlockReadAs(over: Doc, tag: string, order: seq<string>, addresses: map<string, string>)
    requires (forall e :: e in over ==> Solid(e) && e.User?)
    requires ValidTag(tag) && Covers(order, addresses) && CleanAddresses(addresses)
    ensures var read := ChompDoc(over) + BlockElements(tag, order, addresses);
            && LinesOf(Unlines(Lines(over + BlockElements(tag, order, addresses)), LF)) == Lines(read)
            && AllGood(read, CRLF)
  {
    var block := BlockElements(tag, order, addresses);
    BlockIsSolid(tag, order, addresses);
    SolidAppends(over, block);
    WrittenIsChomped(over + block);
    ChompSkipsBlock(over, block);
  }

  lemma UsersAndBlockAreBracketed(over: Doc, tag: string, order: seq<string>, addresses: map<string, string>)
    requires (forall e :: e in over ==> e.User?) && Covers(order, addresses)
    ensures Bracketed(ChompDoc(over) + BlockElements(tag, order, addresses), None)
  {
    forall e | e in ChompDoc(over) ensures e.User? {
      var i :| 0 <= i < |over| && ChompDoc(over)[i] == e;
      assert over[i] in over;
    }
    UsersBracketed(ChompDoc(over));
    BlockIsBracketed(tag, order, addresses);
    BracketsAppend(ChompDoc(over), BlockElements(tag, order, addresses), None);
  }

  lemma MergedClears(lines: seq<string>, tag: string, order: seq<string>, addresses: map<string, string>)
    requires Covers(order, addresses)
    ensures var read := ChompDoc(Override(UserElements(lines), tag, addresses.Keys)) + BlockElements(tag, order, addresses);
            Lines(Cleared(read, tag)) == ChompAll(lines)
  {
    var block := BlockElements(tag, order, addresses);
    ClearedAppends(ChompDoc(Override(UserElements(lines), tag, addresses.Keys)), block, tag);
    OwnedIsCleared(block, tag);
    ClearingChomped(lines, tag, addresses.Keys);
  }

  /** The lines of a merged file, read back and cleared of the tag. */
  lemma MergedReadsChomped(lines: seq<string>, tag: string, order: seq<string>, addresses: map<string, string>)
    requires AllPlain(lines) && NoFeeds(lines) && ValidTag(tag) && Covers(order, addresses) && CleanAddresses(addresses)
    ensures var doc := Override(UserElements(lines), tag, addresses.Keys) + BlockElements(tag, order, addresses);
            Unblock(LinesOf(Unlines(Lines(doc), LF)), tag, false) == ChompAll(lines)
  {
    OverriddenUsersAreSolid(lines, tag, addresses.Keys);
    UsersAndBlockReadAs(Override(UserElements(lines), tag, addresses.Keys), tag, order, addresses);
    UsersAndBlockAreBracketed(Override(UserElements(lines), tag, addresses.Keys), tag, order, addresses);
    MergedClears(lines, tag, order, addresses);
    var read := ChompDoc(Override(UserElements(lines), tag, addresses.Keys)) + BlockElements(tag, order, addresses);
    UnblockClears(read, tag, None, CRLF);
  }

  // ---------- Applying and removing loses the return ----------

  lemma {:induction false} PlainUnblocks(lines: seq<string>, tag: string)
    requires AllPlain(lines) && ValidTag(tag)
    ensures Unblock(lines, tag, false) == lines
    ensures forall found :: Entries(lines, tag, false, found) == found
  {
    if lines != [] {
      assert Plain(lines[0]);
      PlainReads(lines[0], tag);
      PlainUnblocks(lines[1..], tag);
    }
  }

  lemma {:induction false} FewNames(hosts: seq<string>)
    ensures |FilterMap(hosts, AliasOf)| <= |hosts|
  {
    if hosts != [] {
      FewNames(hosts[..|hosts| - 1]);
    }
  }

  lemma {:induction false} PlaceAddsOne(x: string, s: seq<string>)
    requires x !in s
    ensures |Place(x, s)| == |s| + 1
  {
    if s != [] && !Less(x, s[0]) {
      PlaceAddsOne(x, s[1..]);
    }
  }

  lemma {:induction false} CollectsFew(names: seq<string>)
    ensures |Collect(names)| <= |names|
  {
    if names != [] {
      var before, name := names[..|names| - 1], names[|names| - 1];
      CollectsFew(before);
      if name !in Collect(before) {
        PlaceAddsOne(name, Collect(before));
      }
    }
  }

  lemma FewSortedNames(hosts: seq<string>)
    ensures |SortedNames(hosts)| <= |hosts|
  {
    FewNames(hosts);
    CollectsFew(FilterMap(hosts, AliasOf));
  }

  /** An allocation that starts from nothing hands out slot addresses only. */
  lemma FreshAllocationIsClean(hosts: seq<string>, addresses: map<string, string>)
    requires IsAllocation(hosts, map[], addresses)
    ensures CleanAddresses(addresses) && Covers(SortedNames(hosts), addresses)
  {
    AllocationIsSound(hosts, map[], addresses);
    SortedNamesAreNames(hosts);
    forall n | n in addresses ensures MappableName(n) && SlotIp(addresses[n]) {
      assert n in SortedNames(hosts);
    }
  }

  /** Some apply of the tag, with replacement, to a text that has no block of it. */
  lemma SomeApply(text: string, tag: string) returns (op: Op)
    requires ValidTag(tag) && ExistingEntries(text, tag) == map[]
    ensures op.Apply? && op.tag == tag && op.hosts != [] && op.replace && Fits(text, op)
    ensures CleanAddresses(op.addresses) && Covers(SortedNames(op.hosts), op.addresses)
  {
    var hosts := ["a"];
    FewSortedNames(hosts);
    FewHostsHaveRoom(hosts, map[]);
    var addresses := AllocationExists(hosts, map[]);
    FreshAllocationIsClean(hosts, addresses);
    op := Apply(tag, hosts, true, addresses);
  }

  /** The lines of such a file as the next command reads them, without a last one that only was a return. */
  function KeptLines(text: string): seq<string> {
    WithoutLastBlank(ChompAll(LinesOf(text)))
  }

  /** A removal writes such a file's lines, and the next command reads them without one return. */
  lemma RemovalReadsAs(text: string, tag: string)
    requires AllPlain(LinesOf(text)) && ValidTag(tag) && !HasCrLf(text) && EndsInCr(text)
    ensures LinesOf(RemoveText(text, tag)) == ChompAll(LinesOf(text))
  {
    var lines := LinesOf(text);
    PlainUnblocks(lines, tag);
    OnlyLastReturns(text);
    LinesHaveNoFeed(text);
    assert DropBlank(lines) == lines;
    LinesOfWritten(lines);
  }

  /** The text of an apply that replaces, given what the removal before it leaves. */
  lemma MergedOnto(text: string, op: Op, base: seq<string>)
    requires op.Apply? && op.hosts != [] && op.replace && Fits(text, op) && Covers(SortedNames(op.hosts), op.addresses)
    requires LinesOf(RemoveText(text, op.tag)) == base && AllPlain(base) && NoFeeds(base)
    ensures After(text, op) == Unlines(Lines(Override(UserElements(WithoutLastBlank(base)), op.tag, op.addresses.Keys)
                                             + BlockElements(op.tag, SortedNames(op.hosts), op.addresses)), NewlineOf(text))
    ensures Merges(text, op)
  {
    MergesAs(base, WithoutLastBlank(base), op.tag, SortedNames(op.hosts), op.addresses);
  }

  lemma AppliedText(text: string, op: Op)
    requires AllPlain(LinesOf(text)) && !HasCrLf(text) && EndsInCr(text)
    requires op.Apply? && op.hosts != [] && op.replace && Fits(text, op) && Covers(SortedNames(op.hosts), op.addresses)
    ensures After(text, op) == Unlines(Lines(Override(UserElements(KeptLines(text)), op.tag, op.addresses.Keys)
                                             + BlockElements(op.tag, SortedNames(op.hosts), op.addresses)), LF)
  {
    RemovalReadsAs(text, op.tag);
    LinesHaveNoFeed(text);
    KeptIsPlain(LinesOf(text));
    MergedOnto(text, op, ChompAll(LinesOf(text)));
  }

  /** Applying once and removing again. */
  lemma AppliedAndRemoved(text: string, op: Op)
    requires AllPlain(LinesOf(text)) && !HasCrLf(text) && EndsInCr(text)
    requires op.Apply? && op.hosts != [] && op.replace && Fits(text, op)
    requires CleanAddresses(op.addresses) && Covers(SortedNames(op.hosts), op.addresses)
    ensures RemoveText(After(text, op), op.tag) == Unlines(DropBlank(ChompAll(KeptLines(text))), NewlineOf(After(text, op)))
  {
    AppliedText(text, op);
    StrayLines(text);
    MergedReadsChomped(KeptLines(text), op.tag, SortedNames(op.hosts), op.addresses);
  }

  lemma KeptIsPlain(lines: seq<string>)
    requires AllPlain(lines) && NoFeeds(lines)
    ensures AllPlain(ChompAll(lines)) && NoFeeds(ChompAll(lines))
  {
    forall i | 0 <= i < |lines| ensures Plain(ChompAll(lines)[i]) && '\n' !in ChompAll(lines)[i] {
      assert Plain(lines[i]) && '\n' !in lines[i];
      ChompedIsPlain(lines[i]);
    }
  }

  lemma PlainLinesAreGood(base: seq<string>)
    requires AllPlain(base) && NoFeeds(base)
    ensures AllGood(UserElements(base), CRLF) && Lines(UserElements(base)) == base
  {
    var users := UserElements(base);
    forall e | e in users ensures Good(e, CRLF) {
      var i :| 0 <= i < |users| && users[i] == e;
      assert Plain(base[i]) && '\n' !in base[i];
    }
  }

  lemma DisabledUsers(lines: seq<string>, tag: string, names: set<string>)
    requires AllPlain(lines) && NoFeeds(lines) && ValidTag(tag)
    ensures DisableLines(lines, tag, names) == Lines(Override(UserElements(lines), tag, names))
  {
    PlainLinesAreGood(lines);
    OverrideDisables(UserElements(lines), tag, names, CRLF);
  }

  /** A blank last line goes before or after the conflicting lines are disabled. */
  lemma DisablingKeepsLastBlank(base: seq<string>, tag: string, names: set<string>)
    ensures WithoutLastBlank(DisableLines(base, tag, names)) == DisableLines(WithoutLastBlank(base), tag, names)
  {
    BlankReturnDoesNotConflict([], names);
    if base != [] {
      DisabledLast(base, tag, names);
    }
  }

  lemma DisabledWithoutLast(base: seq<string>, tag: string, names: set<string>)
    requires AllPlain(base) && NoFeeds(base) && ValidTag(tag)
    ensures WithoutLastBlank(DisableLines(base, tag, names)) == Lines(Override(UserElements(WithoutLastBlank(base)), tag, names))
  {
    DisablingKeepsLastBlank(base, tag, names);
    DisabledUsers(WithoutLastBlank(base), tag, names);
  }

  /** Merging onto plain lines, with replacement. */
  lemma MergesAs(base: seq<string>, kept: seq<string>, tag: string, order: seq<string>, addresses: map<string, string>)
    requires AllPlain(base) && NoFeeds(base) && ValidTag(tag) && Covers(order, addresses) && kept == WithoutLastBlank(base)
    ensures MergeLines(base, tag, order, addresses, true) ==
            Some(Lines(Override(UserElements(kept), tag, addresses.Keys) + BlockElements(tag, order, addresses)))
  {
    DisabledWithoutLast(base, tag, addresses.Keys);
    BlockShows(tag, order, addresses);
    LinesAppend(Override(UserElements(kept), tag, addresses.Keys), BlockElements(tag, order, addresses));
  }

  lemma DisabledLast(base: seq<string>, tag: string, names: set<string>)
    requires base != [] && !Conflicting([], names)
    ensures DisableLines(base, tag, names)[|base| - 1] == [] <==> base[|base| - 1] == []
  {
  }

  // ---------- The original does not come back ----------

  /** Writing lines that are as many as `lines`, or fewer, but end otherwise, never gives the text written for `lines`. */
  lemma WrittenOtherwise(lines: seq<string>, kept: seq<string>, newline: string)
    requires NoFeeds(lines) && NoFeeds(kept) && newline in {LF, CRLF} && lines != []
    requires |kept| == |lines| ==> |kept[|kept| - 1]| < |Chomp(lines[|lines| - 1])|
    ensures Unlines(kept, newline) != Unlines(lines, LF)
  {
    LinesOfWritten(lines);
    if newline == LF {
      LinesOfWritten(kept);
      assert |kept| == |lines| ==> |ChompAll(kept)[|kept| - 1]| < |ChompAll(lines)[|lines| - 1]|;
    } else {
      LinesOfUnlines(kept, newline);
    }
  }

  lemma UsersAreGood(kept: seq<string>)
    requires AllPlain(kept) && NoFeeds(kept) && AllStable(kept, LF)
    ensures AllGood(UserElements(kept), LF)
  {
    var users := UserElements(kept);
    forall e | e in users ensures Good(e, LF) {
      var i :| 0 <= i < |users| && users[i] == e;
      assert Plain(kept[i]);
    }
  }

  lemma MergedWithoutReturns(kept: seq<string>, tag: string, order: seq<string>, addresses: map<string, string>)
    requires AllGood(UserElements(kept), LF)
    requires ValidTag(tag) && Covers(order, addresses) && CleanAddresses(addresses)
    ensures var doc := Override(UserElements(kept), tag, addresses.Keys) + BlockElements(tag, order, addresses);
            NewlineOf(Unlines(Lines(doc), LF)) == LF
  {
    var over, block := Override(UserElements(kept), tag, addresses.Keys), BlockElements(tag, order, addresses);
    OverridingKeepsGood(UserElements(kept), tag, addresses.Keys, LF);
    BlockIsGood(tag, order, addresses, LF);
    ShownLinesAreStable(over + block, LF);
    NewlineOfUnlines(Lines(over + block), LF);
  }

  lemma KeptWithTwoReturns(lines: seq<string>)
    requires LastReturns(lines) && EndsInCr(Chomp(lines[|lines| - 1]))
    ensures WithoutLastBlank(ChompAll(lines)) == ChompAll(lines)
    ensures |Chomp(Chomp(lines[|lines| - 1]))| < |Chomp(lines[|lines| - 1])|
  {
  }

  lemma KeptWithOneReturn(lines: seq<string>)
    requires LastReturns(lines) && !EndsInCr(Chomp(lines[|lines| - 1])) && NoFeeds(ChompAll(lines))
    ensures AllStable(WithoutLastBlank(ChompAll(lines)), LF)
  {
    forall i | 0 <= i < |lines| ensures Stable(ChompAll(lines)[i], LF) {
    }
  }

  lemma StableChomps(lines: seq<string>)
    requires AllStable(lines, LF)
    ensures ChompAll(lines) == lines
  {
    forall i | 0 <= i < |lines| ensures ChompAll(lines)[i] == lines[i] {
      assert Stable(lines[i], LF);
    }
  }

  /** How the lines of such a file are read back. */
  lemma StrayLines(text: string)
    requires AllPlain(LinesOf(text)) && !HasCrLf(text) && EndsInCr(text)
    ensures LastReturns(LinesOf(text)) && NoFeeds(LinesOf(text))
    ensures AllPlain(KeptLines(text)) && NoFeeds(KeptLines(text))
    ensures NoFeeds(ChompAll(LinesOf(text))) && NoFeeds(ChompAll(KeptLines(text)))
  {
    OnlyLastReturns(text);
    LinesHaveNoFeed(text);
    KeptIsPlain(LinesOf(text));
    KeptIsPlain(KeptLines(text));
  }

  predicate LosesOneOnly(text: string) {
    LinesOf(text) != [] && !EndsInCr(Chomp(LinesOf(text)[|LinesOf(text)| - 1]))
  }

  lemma DropsToFewer(kept: seq<string>)
    requires NoFeeds(kept)
    ensures NoFeeds(DropBlank(kept)) && (|DropBlank(kept)| == |kept| ==> DropBlank(kept) == kept)
  {
  }

  /** The last line loses both its returns, or goes. */
  lemma TwoReturnsAreLost(lines: seq<string>, newline: string)
    requires LastReturns(lines) && EndsInCr(Chomp(lines[|lines| - 1])) && newline in {LF, CRLF}
    requires NoFeeds(lines) && NoFeeds(ChompAll(WithoutLastBlank(ChompAll(lines))))
    ensures Unlines(DropBlank(ChompAll(WithoutLastBlank(ChompAll(lines)))), newline) != Unlines(lines, LF)
  {
    var kept := ChompAll(WithoutLastBlank(ChompAll(lines)));
    KeptWithTwoReturns(lines);
    assert kept[|lines| - 1] == Chomp(Chomp(lines[|lines| - 1]));
    DropsToFewer(kept);
    WrittenOtherwise(lines, DropBlank(kept), newline);
  }

  /** The last line loses its one return, or goes. */
  lemma OneReturnIsLost(lines: seq<string>)
    requires LastReturns(lines) && !EndsInCr(Chomp(lines[|lines| - 1])) && NoFeeds(ChompAll(lines))
    ensures AllStable(WithoutLastBlank(ChompAll(lines)), LF)
    ensures Unlines(DropBlank(ChompAll(WithoutLastBlank(ChompAll(lines)))), LF) != Unlines(lines, LF)
  {
    KeptWithOneReturn(lines);
    StableChomps(WithoutLastBlank(ChompAll(lines)));
    DifferByReturn(lines, DropBlank(WithoutLastBlank(ChompAll(lines))));
  }

  lemma NormalFormWithReturn(text: string)
    requires !HasCrLf(text) && LastReturns(LinesOf(text))
    ensures NormalForm(text) == Unlines(LinesOf(text), LF)
  {
  }

  lemma KeptIsNotNormal(text: string, newline: string)
    requires AllPlain(LinesOf(text)) && !HasCrLf(text) && EndsInCr(text)
    requires newline in {LF, CRLF} && (LosesOneOnly(text) ==> newline == LF)
    ensures Unlines(DropBlank(ChompAll(KeptLines(text))), newline) != NormalForm(text)
  {
    StrayLines(text);
    NormalFormWithReturn(text);
    if LosesOneOnly(text) {
      OneReturnIsLost(LinesOf(text));
    } else {
      TwoReturnsAreLost(LinesOf(text), newline);
    }
  }

  /** Lines merged onto such a file have no CR LF when none of its lines ended in two returns. */
  lemma MergedNewline(text: string, tag: string, order: seq<string>, addresses: map<string, string>)
    requires AllPlain(LinesOf(text)) && !HasCrLf(text) && EndsInCr(text) && LosesOneOnly(text)
    requires ValidTag(tag) && Covers(order, addresses) && CleanAddresses(addresses)
    ensures var doc := Override(UserElements(KeptLines(text)), tag, addresses.Keys) + BlockElements(tag, order, addresses);
            NewlineOf(Unlines(Lines(doc), LF)) == LF
  {
    StrayLines(text);
    KeptWithOneReturn(LinesOf(text));
    UsersAreGood(KeptLines(text));
    MergedWithoutReturns(KeptLines(text), tag, order, addresses);
  }

  lemma AppliedNewline(text: string, op: Op)
    requires AllPlain(LinesOf(text)) && !HasCrLf(text) && EndsInCr(text)
    requires op.Apply? && op.hosts != [] && op.replace && Fits(text, op)
    requires CleanAddresses(op.addresses) && Covers(SortedNames(op.hosts), op.addresses)
    ensures NewlineOf(After(text, op)) in {LF, CRLF}
    ensures LosesOneOnly(text) ==> NewlineOf(After(text, op)) == LF
  {
    AppliedText(text, op);
    if LosesOneOnly(text) {
      MergedNewline(text, op.tag, SortedNames(op.hosts), op.addresses);
    }
  }

  /** Such a file does not come back when one apply is removed again: its last line has lost its return. */
  lemma ReturnIsLost(text: string, op: Op)
    requires AllPlain(LinesOf(text)) && !HasCrLf(text) && EndsInCr(text)
    requires op.Apply? && op.hosts != [] && op.replace && Fits(text, op)
    requires CleanAddresses(op.addresses) && Covers(SortedNames(op.hosts), op.addresses)
    ensures RemoveText(After(text, op), op.tag) != NormalForm(text)
  {
    AppliedNewline(text, op);
    KeptIsNotNormal(text, NewlineOf(After(text, op)));
    AppliedAndRemoved(text, op);
  }

  lemma DifferByReturn(lines: seq<string>, kept: seq<string>)
    requires lines != [] && EndsInCr(lines[|lines| - 1]) && AllStable(kept, LF)
    ensures Unlines(kept, LF) != Unlines(lines, LF)
  {
    UnlinesWithLf(kept);
    EndsWithCrLf(lines);
  }

  lemma EndsWithCrLf(lines: seq<string>)
    requires lines != [] && EndsInCr(lines[|lines| - 1])
    ensures HasCrLf(Unlines(lines, LF))
  {
    var last := |lines| - 1;
    UnlinesAppends(lines[..last], [lines[last]], LF);
    assert lines == lines[..last] + [lines[last]];
    var before, l := Unlines(lines[..last], LF), lines[last];
    assert Unlines([l], LF) == l + LF + [];
    var text := Unlines(lines, LF);
    assert text[|before| + |l| - 1] == '\r' && text[|before| + |l| - 1 + 1] == '\n';
  }

  /** A run of one apply and its removal, after which such a file is not the original. */
  lemma SomeRunLosesIt(text: string) returns (ops: seq<Op>)
    requires AllPlain(LinesOf(text)) && !HasCrLf(text) && EndsInCr(text)
    ensures AllFit(text, ops) && ops != [] && Pending({}, ops) == {} && Final(text, ops) != NormalForm(text)
  {
    PlainUnblocks(LinesOf(text), "a");
    var op := SomeApply(text, "a");
    ReturnIsLost(text, op);
    TwoOps(text, op, Remove("a"));
    ops := [op, Remove("a")];
  }

  lemma TwoOps(text: string, op: Op, undo: Op)
    requires Fits(text, op) && op.Apply? && undo == Remove(op.tag)
    ensures AllFit(text, [op, undo]) && Final(text, [op, undo]) == RemoveText(After(text, op), op.tag)
    ensures Pending({}, [op, undo]) == {}
  {
    var ops, mid := [op, undo], After(text, op);
    assert ops[1..] == [undo] && [undo][1..] == [];
    assert AllFit(mid, [undo]);
    assert Final(mid, [undo]) == Final(After(mid, undo), []);
    assert Pending({}, ops) == Pending({} + {op.tag}, [undo]) == Pending({}, []);
  }

  /**
    The exact condition: a file without marker lines comes back after every run that removes what it
    applied if and only if it has CR LF endings or does not end in a carriage return.
  */
  lemma OriginalReturnsExactly(text: string)
    requires AllPlain(LinesOf(text))
    ensures HasCrLf(text) || !EndsInCr(text) <==>
            forall ops :: AllFit(text, ops) && ops != [] && Pending({}, ops) == {} ==> Final(text, ops) == NormalForm(text)
  {
    if HasCrLf(text) || !EndsInCr(text) {
      assert Pristine(text);
      forall ops | AllFit(text, ops) && ops != [] && Pending({}, ops) == {} ensures Final(text, ops) == NormalForm(text) {
        RemovingAllGivesOriginal(text, ops);
      }
    } else {
      var ops := SomeRunLosesIt(text);
    }
  }
}
