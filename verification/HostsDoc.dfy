/**
  A hosts file as structure: user lines and tagged blocks, each line possibly disabled by a tag.
  The text operations are simulated on it.
*/
module HostsDoc {
  import opened Util
  import opened HostNames
  import opened HostAllocation
  import opened HostsText

  datatype Element =
    | User(mark: Option<string>, line: string)
    | Open(tag: string)
    | Entry(tag: string, mark: Option<string>, ip: string, name: string)
    | Close(tag: string)

  type Doc = seq<Element>

  function Disabled(mark: Option<string>, line: string): string {
    match mark
    case None => line
    case Some(tag) => DisabledPrefix(tag) + line
  }

  function Shown(e: Element): string {
    match e
    case User(mark, line) => Disabled(mark, line)
    case Open(tag) => Begin(tag)
    case Entry(_, mark, ip, name) => Disabled(mark, EntryLine(ip, name))
    case Close(tag) => End(tag)
  }

  function Lines(doc: Doc): (r: seq<string>)
    ensures |r| == |doc|
    ensures forall i :: 0 <= i < |doc| ==> r[i] == Shown(doc[i])
  {
    if doc == [] then [] else [Shown(doc[0])] + Lines(doc[1..])
  }

  // ---------- Well-formed elements ----------

  /** A line without any marker of this program. */
  ghost predicate Plain(line: string) {
    forall tag :: ValidTag(tag) ==> Trim(line) != Begin(tag) && Trim(line) != End(tag) && !(DisabledPrefix(tag) <= line)
  }

  predicate ValidMark(mark: Option<string>) {
    mark.Some? ==> ValidTag(mark.value)
  }

  ghost predicate Good(e: Element, newline: string) {
    match e
    case User(mark, line) => Plain(line) && Stable(line, newline) && ValidMark(mark) && (mark.Some? ==> line != [])
    case Open(tag) => ValidTag(tag)
    case Entry(tag, mark, ip, name) => ValidTag(tag) && ValidMark(mark) && SlotIp(ip) && MappableName(name)
    case Close(tag) => ValidTag(tag)
  }

  ghost predicate AllGood(doc: Doc, newline: string) {
    forall e :: e in doc ==> Good(e, newline)
  }

  // ---------- Addresses as text ----------

  lemma {:induction false} LabelsWithoutDot(a: string)
    requires '.' !in a
    ensures Labels(a) == [a]
  {
    if a != [] {
      assert a[0] in a;
      LabelsWithoutDot(a[1..]);
      assert a == [a[0]] + a[1..];
    }
  }

  lemma {:induction false} LabelsSplit(a: string, b: string)
    requires '.' !in a
    ensures Labels(a + ['.'] + b) == [a] + Labels(b)
  {
    var s := a + ['.'] + b;
    if a == [] {
      assert s[0] == '.' && s[1..] == b;
    } else {
      assert a[0] in a;
      assert s[0] == a[0] && s[1..] == a[1..] + ['.'] + b;
      LabelsSplit(a[1..], b);
      assert a == [a[0]] + a[1..];
    }
  }

  lemma DecimalIsShort(n: nat)
    requires n < 256
    ensures 1 <= |Decimal(n)| <= 3 && '.' !in Decimal(n)
  {
    if n >= 100 {
      assert n / 10 >= 10 && n / 100 < 10;
    }
  }

  lemma LabelsOfQuad(a: string, b: string, c: string, d: string)
    requires '.' !in a && '.' !in b && '.' !in c && '.' !in d
    ensures Labels(a + ['.'] + (b + ['.'] + (c + ['.'] + d))) == [a, b, c, d]
  {
    var cd := c + ['.'] + d;
    var bcd := b + ['.'] + cd;
    LabelsSplit(a, bcd);
    LabelsSplit(b, cd);
    LabelsSplit(c, d);
    LabelsWithoutDot(d);
  }

  predicate QuadPart(l: string) {
    1 <= |l| <= 3 && forall i :: 0 <= i < |l| ==> IsDigit(l[i])
  }

  lemma FourPartsAreQuad(name: string, a: string, b: string, c: string, d: string)
    requires Labels(name) == [a, b, c, d] && QuadPart(a) && QuadPart(b) && QuadPart(c) && QuadPart(d)
    ensures DottedQuad(name)
  {
    forall l | l in Labels(name) ensures 1 <= |l| <= 3 && forall i :: 0 <= i < |l| ==> IsDigit(l[i]) {
      assert QuadPart(l);
    }
  }

  lemma SlotAddressParts(slot: nat)
    ensures SlotAddress(slot) == "127" + ['.'] + ("77" + ['.'] + (Decimal(slot / 256) + ['.'] + Decimal(slot % 256)))
  {
  }

  /** A slot address is a dotted quad, so no mappable name is one. */
  lemma SlotAddressIsQuad(slot: nat)
    requires slot <= SLOTS
    ensures DottedQuad(SlotAddress(slot))
  {
    var c, d := Decimal(slot / 256), Decimal(slot % 256);
    DecimalIsShort(slot / 256);
    DecimalIsShort(slot % 256);
    SlotAddressParts(slot);
    LabelsOfQuad("127", "77", c, d);
    FourPartsAreQuad(SlotAddress(slot), "127", "77", c, d);
  }

  predicate AddressChar(c: char) {
    IsDigit(c) || c == '.'
  }

  lemma SlotAddressChars(slot: nat)
    ensures var ip := SlotAddress(slot);
            Word(ip) && Usable(ip) && ip[0] == '1' && ip[|ip| - 1] != '.' && forall i :: 0 <= i < |ip| ==> AddressChar(ip[i])
  {
    var ip := SlotAddress(slot);
    var c, d := Decimal(slot / 256), Decimal(slot % 256);
    assert ip == PREFIX + c + "." + d;
    forall i | 0 <= i < |ip| ensures AddressChar(ip[i]) {
      if i >= |PREFIX| + |c| + 1 {
        assert ip[i] == d[i - |PREFIX| - |c| - 1];
      } else if |PREFIX| <= i < |PREFIX| + |c| {
        assert ip[i] == c[i - |PREFIX|];
      }
    }
    assert ip[|ip| - 1] == d[|d| - 1];
  }

  lemma AddressIsNormal(ip: string)
    requires ip != [] && ip[|ip| - 1] != '.' && !IsSpace(ip[0]) && !IsSpace(ip[|ip| - 1])
    requires forall i :: 0 <= i < |ip| ==> LowerChar(ip[i]) == ip[i]
    ensures NormalizeHostname(ip) == ip
  {
    TrimOfTight(ip);
    assert Lower(ip) == ip;
  }

  lemma QuadIsNotMappable(name: string)
    requires NormalizeHostname(name) == name && DottedQuad(name)
    ensures !MappableName(name)
  {
  }

  /** An address never reads as a mappable name. */
  lemma AddressIsNoName(ip: string)
    requires SlotIp(ip)
    ensures NormalizeHostname(ip) == ip && !MappableName(ip)
  {
    var slot: nat :| 1 <= slot <= SLOTS && ip == SlotAddress(slot);
    SlotAddressChars(slot);
    SlotAddressIsQuad(slot);
    forall i | 0 <= i < |ip| ensures LowerChar(ip[i]) == ip[i] {
      assert AddressChar(ip[i]);
    }
    AddressIsNormal(ip);
    QuadIsNotMappable(ip);
  }

  lemma EntryLineChars(ip: string, name: string)
    requires ip != [] && name != [] && (forall i :: 0 <= i < |ip| ==> AddressChar(ip[i])) && ip[0] == '1'
    requires forall i :: 0 <= i < |name| ==> !IsSpace(name[i]) && name[i] != '#'
    ensures var line := EntryLine(ip, name);
            line[0] == '1' && Trim(line) == line && '#' !in line && '\n' !in line && !EndsInCr(line)
  {
    var line := EntryLine(ip, name);
    assert line[|line| - 1] == name[|name| - 1] && line[0] == ip[0];
    TrimOfTight(line);
    forall i | 0 <= i < |line| ensures line[i] != '#' && line[i] != '\n' {
      if i < |ip| {
        assert line[i] == ip[i] && AddressChar(ip[i]);
      } else if i > |ip| {
        assert line[i] == name[i - |ip| - 1];
      }
    }
  }

  lemma EntryChars(ip: string, name: string)
    requires SlotIp(ip) && MappableName(name)
    ensures Word(ip) && Word(name) && Usable(ip)
    ensures var line := EntryLine(ip, name);
            line[0] == '1' && Trim(line) == line && '#' !in line && '\n' !in line && !EndsInCr(line)
  {
    var slot: nat :| 1 <= slot <= SLOTS && ip == SlotAddress(slot);
    SlotAddressChars(slot);
    MappableChars(name);
    EntryLineChars(ip, name);
  }

  // ---------- Markers as text ----------

  lemma {:induction false} SolidToKeeps(s: string, j: nat, k: nat)
    requires k < j <= |s| && !IsSpace(s[k])
    ensures SolidTo(s, 0, j) > k
  {
    if IsSpace(s[j - 1]) {
      SolidToKeeps(s, j - 1, k);
    }
  }

  /** Trimming keeps two solid characters at the start. */
  lemma TrimKeepsStart(s: string)
    requires |s| >= 2 && !IsSpace(s[0]) && !IsSpace(s[1])
    ensures |Trim(s)| >= 2 && Trim(s)[0] == s[0] && Trim(s)[1] == s[1]
  {
    SolidToKeeps(s, |s|, 1);
  }

  lemma TagChars(tag: string)
    requires ValidTag(tag)
    ensures forall i :: 0 <= i < |tag| ==> tag[i] != ']' && tag[i] != '\n' && tag[i] != '\r'
  {
  }

  lemma BeginText(tag: string)
    requires ValidTag(tag)
    ensures var b := Begin(tag); |b| > 3 && b[0] == '#' && b[1] == ' ' && b[2] == '>' && Trim(b) == b && '\n' !in b && !EndsInCr(b)
  {
    TagChars(tag);
    TrimOfTight(Begin(tag));
  }

  lemma EndText(tag: string)
    requires ValidTag(tag)
    ensures var b := End(tag); |b| > 3 && b[0] == '#' && b[1] == ' ' && b[2] == '<' && Trim(b) == b && '\n' !in b && !EndsInCr(b)
  {
    TagChars(tag);
    TrimOfTight(End(tag));
  }

  lemma MarkersDiffer(a: string, b: string)
    ensures Begin(a) == Begin(b) ==> a == b
    ensures End(a) == End(b) ==> a == b
  {
    if Begin(a) == Begin(b) {
      assert |a| == |b|;
      assert a == Begin(a)[15..15 + |a|] && b == Begin(b)[15..15 + |b|];
    }
    if End(a) == End(b) {
      assert |a| == |b|;
      assert a == End(a)[15..15 + |a|] && b == End(b)[15..15 + |b|];
    }
  }

  const DISABLED := "#azbridge-disabled["

  /** Two disabling prefixes fit the same line only if they carry the same tag. */
  lemma PrefixesDiffer(a: string, b: string, line: string)
    requires ValidTag(a) && ValidTag(b)
    ensures DisabledPrefix(a) <= DisabledPrefix(b) + line <==> a == b
  {
    TagChars(a);
    TagChars(b);
    var s := DisabledPrefix(b) + line;
    var tail := "]: ";
    assert s == DISABLED + (b + [']'] + (": " + line));
    if DisabledPrefix(a) <= s {
      var rest := s[|DisabledPrefix(a)|..];
      assert s == DisabledPrefix(a) + rest;
      assert s == DISABLED + (a + [']'] + (": " + rest));
      assert s[|DISABLED|..] == a + [']'] + (": " + rest);
      assert s[|DISABLED|..] == b + [']'] + (": " + line);
      SeparatorSplits(a, ": " + rest, b, ": " + line, ']');
    }
  }

  lemma DisabledText(tag: string, line: string)
    requires ValidTag(tag)
    ensures var s := DisabledPrefix(tag) + line; |s| > 2 && s[0] == '#' && s[1] == 'a' && Trim(s) != [] && Trim(s)[0] == '#'
    ensures forall t :: Trim(DisabledPrefix(tag) + line) != Begin(t) && Trim(DisabledPrefix(tag) + line) != End(t)
    ensures '\n' !in line ==> '\n' !in DisabledPrefix(tag) + line
    ensures EndsInCr(DisabledPrefix(tag) + line) ==> EndsInCr(line)
  {
    var s := DisabledPrefix(tag) + line;
    assert s[0] == '#' && s[1] == 'a';
    TrimKeepsStart(s);
    forall t ensures Trim(s) != Begin(t) && Trim(s) != End(t) {
      assert Begin(t)[1] == ' ' && End(t)[1] == ' ';
    }
    TagChars(tag);
    forall i | 0 <= i < |DisabledPrefix(tag)| ensures s[i] != '\n' {
      if |DISABLED| <= i < |DISABLED| + |tag| {
        assert s[i] == tag[i - |DISABLED|];
      }
    }
    forall i | |DisabledPrefix(tag)| <= i < |s| ensures s[i] == line[i - |DisabledPrefix(tag)|] {
    }
    if line == [] {
      assert s[|s| - 1] == ' ';
    }
  }

  // ---------- What the operations do to the structure ----------

  predicate OwnedBy(e: Element, tag: string) {
    !e.User? && e.tag == tag
  }

  function RestoredMark(mark: Option<string>, tag: string): Option<string> {
    if mark == Some(tag) then None else mark
  }

  /** An element after `tag` restored what it disabled. */
  function Restored(e: Element, tag: string): Element {
    match e
    case User(mark, line) => User(RestoredMark(mark, tag), line)
    case Entry(t, mark, ip, name) => Entry(t, RestoredMark(mark, tag), ip, name)
    case _ => e
  }

  function Cleared(doc: Doc, tag: string): Doc {
    if doc == [] then []
    else (if OwnedBy(doc[0], tag) then [] else [Restored(doc[0], tag)]) + Cleared(doc[1..], tag)
  }

  /** A line in force that maps one of the names. */
  predicate Active(e: Element, names: set<string>) {
    match e
    case User(None, line) => Conflicting(line, names)
    case Entry(_, None, _, name) => name in names
    case _ => false
  }

  function Overridden(e: Element, tag: string, names: set<string>): Element {
    if !Active(e, names) then e
    else
      match e
      case User(_, line) => User(Some(tag), line)
      case Entry(t, _, ip, name) => Entry(t, Some(tag), ip, name)
      case _ => e
  }

  function Override(doc: Doc, tag: string, names: set<string>): (r: Doc)
    ensures |r| == |doc| && forall i :: 0 <= i < |doc| ==> r[i] == Overridden(doc[i], tag, names)
  {
    seq(|doc|, i requires 0 <= i < |doc| => Overridden(doc[i], tag, names))
  }

  function EntryElements(tag: string, order: seq<string>, addresses: map<string, string>): (r: Doc)
    requires forall n :: n in order ==> n in addresses
    ensures |r| == |order| && forall i :: 0 <= i < |order| ==> r[i] == Entry(tag, None, addresses[order[i]], order[i])
  {
    seq(|order|, i requires 0 <= i < |order| => Entry(tag, None, addresses[order[i]], order[i]))
  }

  function BlockElements(tag: string, order: seq<string>, addresses: map<string, string>): Doc
    requires forall n :: n in order ==> n in addresses
  {
    [Open(tag)] + EntryElements(tag, order, addresses) + [Close(tag)]
  }

  function Merged(doc: Doc, tag: string, order: seq<string>, addresses: map<string, string>): Doc
    requires forall n :: n in order ==> n in addresses
  {
    Override(Cleared(doc, tag), tag, addresses.Keys) + BlockElements(tag, order, addresses)
  }

  /** Blocks are opened and closed in turn, and hold only their own entries; `owner` is the open block. */
  predicate Bracketed(doc: Doc, owner: Option<string>) {
    if doc == [] then owner.None?
    else
      match doc[0]
      case User(_, _) => owner.None? && Bracketed(doc[1..], None)
      case Open(tag) => owner.None? && Bracketed(doc[1..], Some(tag))
      case Entry(tag, _, _, _) => owner == Some(tag) && Bracketed(doc[1..], owner)
      case Close(tag) => owner == Some(tag) && Bracketed(doc[1..], None)
  }

  // ---------- One element as text ----------

  /** How a reader of these markers sees a line. */
  ghost predicate ReadsAs(line: string, begin: string, end: string, prefix: string,
                          begins: bool, ends: bool, undisabled: string)
  {
    && (Trim(line) == begin) == begins
    && (Trim(line) == end) == ends
    && (if prefix <= line then line[|prefix|..] else line) == undisabled
  }

  ghost predicate Reads(line: string, tag: string, begins: bool, ends: bool, undisabled: string) {
    ReadsAs(line, Begin(tag), End(tag), DisabledPrefix(tag), begins, ends, undisabled)
  }

  lemma ElementReads(e: Element, tag: string, newline: string)
    requires Good(e, newline) && ValidTag(tag)
    ensures Reads(Shown(e), tag, e == Open(tag), e == Close(tag), Shown(Restored(e, tag)))
  {
    match e
    case User(mark, line) =>
      PlainReads(line, tag);
      MarkedReads(mark, line, tag);
    case Open(t) =>
      BeginReads(t, tag);
    case Close(t) =>
      EndReads(t, tag);
    case Entry(t, mark, ip, name) =>
      EntryReads(ip, name, tag);
      MarkedReads(mark, EntryLine(ip, name), tag);
  }

  lemma PrefixText(tag: string)
    ensures var p := DisabledPrefix(tag); |p| > 3 && p[0] == '#' && p[1] == 'a'
  {
  }

  /** A marker is told from the other markers by its third character, and from disabled lines by its second. */
  lemma TightReads(line: string, begin: string, end: string, prefix: string, begins: bool, ends: bool)
    requires |line| > 3 && |begin| > 3 && |end| > 3 && |prefix| > 3
    requires Trim(line) == line && prefix[1] != line[1]
    requires if begins then line == begin else line[2] != begin[2] || line != begin
    requires if ends then line == end else line[2] != end[2] || line != end
    ensures ReadsAs(line, begin, end, prefix, begins, ends, line)
  {
  }

  lemma BeginReads(t: string, tag: string)
    requires ValidTag(t) && ValidTag(tag)
    ensures Reads(Begin(t), tag, t == tag, false, Begin(t))
  {
    BeginText(t);
    BeginText(tag);
    EndText(tag);
    PrefixText(tag);
    if t != tag {
      MarkersDiffer(t, tag);
    }
    TightReads(Begin(t), Begin(tag), End(tag), DisabledPrefix(tag), t == tag, false);
  }

  lemma EndReads(t: string, tag: string)
    requires ValidTag(t) && ValidTag(tag)
    ensures Reads(End(t), tag, false, t == tag, End(t))
  {
    EndText(t);
    BeginText(tag);
    EndText(tag);
    PrefixText(tag);
    if t != tag {
      MarkersDiffer(t, tag);
    }
    TightReads(End(t), Begin(tag), End(tag), DisabledPrefix(tag), false, t == tag);
  }

  lemma PlainReads(line: string, tag: string)
    requires Plain(line) && ValidTag(tag)
    ensures Reads(line, tag, false, false, line)
  {
  }

  lemma SolidReads(line: string, begin: string, end: string, prefix: string)
    requires line != [] && begin != [] && end != [] && prefix != []
    requires Trim(line) == line && line[0] != begin[0] && line[0] != end[0] && line[0] != prefix[0]
    ensures ReadsAs(line, begin, end, prefix, false, false, line)
  {
  }

  lemma EntryReads(ip: string, name: string, tag: string)
    requires SlotIp(ip) && MappableName(name) && ValidTag(tag)
    ensures Reads(EntryLine(ip, name), tag, false, false, EntryLine(ip, name))
  {
    EntryChars(ip, name);
    var line := EntryLine(ip, name);
    BeginText(tag);
    EndText(tag);
    PrefixText(tag);
    SolidReads(line, Begin(tag), End(tag), DisabledPrefix(tag));
  }

  lemma MarkedReads(mark: Option<string>, line: string, tag: string)
    requires ValidMark(mark) && ValidTag(tag) && Reads(line, tag, false, false, line)
    ensures Reads(Disabled(mark, line), tag, false, false, Disabled(RestoredMark(mark, tag), line))
  {
    if mark.Some? {
      DisabledText(mark.value, line);
      UndisableMarked(mark.value, line, tag);
    }
  }

  lemma UndisableMarked(t: string, line: string, tag: string)
    requires ValidTag(t) && ValidTag(tag)
    ensures Undisable(DisabledPrefix(t) + line, tag) == if t == tag then line else DisabledPrefix(t) + line
  {
    PrefixesDiffer(tag, t, line);
  }

  lemma ElementIsStable(e: Element, newline: string)
    requires Good(e, newline)
    ensures Stable(Shown(e), newline)
    ensures !e.User? ==> Stable(Shown(e), LF) && Shown(e) != []
    ensures e.User? ==> (Shown(e) == [] <==> e.line == [])
  {
    match e
    case User(mark, line) =>
      if mark.Some? {
        DisabledText(mark.value, line);
      }
    case Open(t) => BeginText(t);
    case Close(t) => EndText(t);
    case Entry(t, mark, ip, name) =>
      EntryChars(ip, name);
      if mark.Some? {
        DisabledText(mark.value, EntryLine(ip, name));
      }
  }

  lemma CommentsDoNotConflict(line: string, names: set<string>)
    requires line != [] && line[0] == '#'
    ensures !Conflicting(line, names)
  {
    assert Content(line) == [];
    assert Words([]) == [];
  }

  lemma EntryConflicts(ip: string, name: string, names: set<string>)
    requires SlotIp(ip) && MappableName(name)
    ensures Conflicting(EntryLine(ip, name), names) <==> name in names
  {
    EntryChars(ip, name);
    ContentWithoutComment(EntryLine(ip, name));
    WordsOfPair(ip, name);
    var words := Words(Content(EntryLine(ip, name)));
    assert words == [ip, name];
    assert words[1] == name;
  }

  lemma ElementConflicts(e: Element, newline: string, names: set<string>)
    requires Good(e, newline)
    ensures Conflicting(Shown(e), names) <==> Active(e, names)
  {
    match e
    case User(mark, line) =>
      if mark.Some? {
        DisabledText(mark.value, line);
        CommentsDoNotConflict(Shown(e), names);
      }
    case Open(t) => CommentsDoNotConflict(Begin(t), names);
    case Close(t) => CommentsDoNotConflict(End(t), names);
    case Entry(t, mark, ip, name) =>
      if mark.Some? {
        DisabledText(mark.value, EntryLine(ip, name));
        CommentsDoNotConflict(Shown(e), names);
      } else {
        EntryConflicts(ip, name, names);
      }
  }

  // ---------- The whole file as text ----------

  /** Removing a tag's block from the text is clearing the tag from the structure. */
  lemma {:induction false} UnblockClears(doc: Doc, tag: string, owner: Option<string>, newline: string)
    requires AllGood(doc, newline) && Bracketed(doc, owner) && ValidTag(tag)
    ensures Unblock(Lines(doc), tag, owner == Some(tag)) == Lines(Cleared(doc, tag))
  {
    if doc != [] {
      var e, rest := doc[0], doc[1..];
      assert e in doc;
      assert AllGood(rest, newline);
      ElementReads(e, tag, newline);
      var next := match e case Open(t) => Some(t) case Close(_) => None case _ => owner;
      UnblockClears(rest, tag, next, newline);
      UnblockFirst(Shown(e), Lines(rest), tag, owner == Some(tag), e == Open(tag), e == Close(tag), Shown(Restored(e, tag)));
      assert Lines(doc) == [Shown(e)] + Lines(rest);
      if !OwnedBy(e, tag) {
        LinesOfCons(Restored(e, tag), Cleared(rest, tag));
      }
    }
  }

  lemma LinesOfCons(e: Element, rest: Doc)
    ensures Lines([e] + rest) == [Shown(e)] + Lines(rest)
  {
  }

  lemma UnblockFirst(line: string, rest: seq<string>, tag: string, inside: bool, begins: bool, ends: bool, undisabled: string)
    requires Reads(line, tag, begins, ends, undisabled)
    ensures Unblock([line] + rest, tag, inside) ==
            if begins then Unblock(rest, tag, true)
            else if ends then Unblock(rest, tag, false)
            else (if inside then [] else [undisabled]) + Unblock(rest, tag, inside)
  {
    var lines := [line] + rest;
    assert lines[0] == line && lines[1..] == rest;
  }

  lemma OverrideDisables(doc: Doc, tag: string, names: set<string>, newline: string)
    requires AllGood(doc, newline)
    ensures DisableLines(Lines(doc), tag, names) == Lines(Override(doc, tag, names))
    ensures AnyConflict(Lines(doc), names) <==> exists e :: e in doc && Active(e, names)
  {
    forall i | 0 <= i < |doc|
      ensures Conflicting(Lines(doc)[i], names) <==> Active(doc[i], names)
      ensures DisableLine(Lines(doc)[i], tag, names) == Shown(Overridden(doc[i], tag, names))
    {
      ElementConflicts(doc[i], newline, names);
    }
  }

  lemma BlockShows(tag: string, order: seq<string>, addresses: map<string, string>)
    requires forall n :: n in order ==> n in addresses
    ensures Lines(BlockElements(tag, order, addresses)) == BlockLines(tag, order, addresses)
  {
  }
}
