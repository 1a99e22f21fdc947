/** The text of a hosts file: lines, tagged blocks, and the three operations on them. */
module HostsText {
  import opened Util
  import opened HostNames

  // ---------- Lines ----------

  /** The position of the first line feed, or the length. */
  function LineEnd(s: string): (i: nat)
    ensures i <= |s| && (i < |s| ==> s[i] == '\n')
    ensures forall j :: 0 <= j < i ==> s[j] != '\n'
  {
    if s == [] || s[0] == '\n' then 0 else 1 + LineEnd(s[1..])
  }

  function Chomp(l: string): string {
    if l != [] && l[|l| - 1] == '\r' then l[..|l| - 1] else l
  }

  /** `str::lines`: a carriage return goes only together with the line feed after it. */
  function LinesOf(s: string): seq<string>
    decreases |s|
  {
    if s == [] then []
    else
      var i := LineEnd(s);
      if i == |s| then [s] else [Chomp(s[..i])] + LinesOf(s[i + 1..])
  }

  /** Every line followed by the line ending. */
  function Unlines(lines: seq<string>, newline: string): string {
    if lines == [] then [] else lines[0] + newline + Unlines(lines[1..], newline)
  }

  predicate HasCrLf(s: string) {
    exists i :: 0 <= i < |s| - 1 && s[i] == '\r' && s[i + 1] == '\n'
  }

  const LF := "\n"
  const CRLF := "\r\n"

  function NewlineOf(s: string): string {
    if HasCrLf(s) then CRLF else LF
  }

  predicate EndsInCr(l: string) {
    l != [] && l[|l| - 1] == '\r'
  }

  /** A line that survives being written and read again. */
  predicate Stable(l: string, newline: string) {
    '\n' !in l && (newline == LF ==> !EndsInCr(l))
  }

  predicate AllStable(lines: seq<string>, newline: string) {
    forall i :: 0 <= i < |lines| ==> Stable(lines[i], newline)
  }

  /** Reading takes one line off the front. */
  lemma FirstLine(body: string, rest: string)
    requires '\n' !in body
    ensures LinesOf(body + ['\n'] + rest) == [Chomp(body)] + LinesOf(rest)
  {
    var s := body + ['\n'] + rest;
    assert forall i :: 0 <= i < |body| ==> s[i] == body[i] && body[i] in body;
    assert s[|body|] == '\n';
    assert LineEnd(s) == |body|;
    assert s[..|body|] == body && s[|body| + 1..] == rest;
  }

  /** What is written is read back. */
  lemma {:induction false} LinesOfUnlines(lines: seq<string>, newline: string)
    requires newline in {LF, CRLF} && AllStable(lines, newline)
    ensures LinesOf(Unlines(lines, newline)) == lines
  {
    if lines != [] {
      var l, rest := lines[0], Unlines(lines[1..], newline);
      LinesOfUnlines(lines[1..], newline);
      var body := if newline == LF then l else l + "\r";
      assert Stable(l, newline);
      FirstLine(body, rest);
      assert Unlines(lines, newline) == body + ['\n'] + rest;
      assert Chomp(body) == l;
      assert lines == [l] + lines[1..];
    }
  }

  lemma {:induction false} UnlinesWithCrLf(lines: seq<string>)
    requires lines != []
    ensures HasCrLf(Unlines(lines, CRLF))
  {
    var l, s := lines[0], Unlines(lines, CRLF);
    assert s[|l|] == '\r' && s[|l| + 1] == '\n';
  }

  lemma {:induction false} UnlinesWithLf(lines: seq<string>)
    requires AllStable(lines, LF)
    ensures !HasCrLf(Unlines(lines, LF))
  {
    if lines != [] {
      var l, rest, s := lines[0], Unlines(lines[1..], LF), Unlines(lines, LF);
      UnlinesWithLf(lines[1..]);
      assert Stable(l, LF);
      assert s == l + ['\n'] + rest;
      assert forall j :: 0 <= j < |l| ==> s[j] == l[j] && l[j] in l;
      assert forall j :: 0 <= j < |rest| ==> s[|l| + 1 + j] == rest[j];
      forall i | 0 <= i < |s| - 1 && s[i + 1] == '\n'
        ensures s[i] != '\r'
      {
        if i + 1 == |l| {
          assert s[i] == l[|l| - 1];
        } else if i > |l| {
          assert s[i] == rest[i - |l| - 1] && s[i + 1] == rest[i - |l| - 1 + 1];
        }
      }
    }
  }

  lemma NewlineOfUnlines(lines: seq<string>, newline: string)
    requires newline in {LF, CRLF} && AllStable(lines, newline)
    ensures NewlineOf(Unlines(lines, newline)) == if lines == [] then LF else newline
  {
    if newline == LF {
      UnlinesWithLf(lines);
    } else if lines != [] {
      UnlinesWithCrLf(lines);
    }
  }

  /** A text that does not end in a stray carriage return has stable lines. */
  lemma {:induction false} LinesAreStable(s: string)
    requires HasCrLf(s) || !EndsInCr(s)
    ensures AllStable(LinesOf(s), NewlineOf(s))
  {
    LinesHaveNoFeed(s);
    if !HasCrLf(s) {
      NoStrayReturns(s);
    }
  }

  lemma {:induction false} LinesHaveNoFeed(s: string)
    ensures forall i :: 0 <= i < |LinesOf(s)| ==> '\n' !in LinesOf(s)[i]
    decreases |s|
  {
    if s != [] {
      var i := LineEnd(s);
      if i < |s| {
        LinesHaveNoFeed(s[i + 1..]);
        assert '\n' !in s[..i];
        assert '\n' !in Chomp(s[..i]);
        assert forall k :: 1 <= k < |LinesOf(s)| ==> LinesOf(s)[k] == LinesOf(s[i + 1..])[k - 1];
      }
    }
  }

  lemma SuffixHasCrLf(s: string, n: nat)
    requires n <= |s| && HasCrLf(s[n..])
    ensures HasCrLf(s)
  {
    var k :| 0 <= k < |s[n..]| - 1 && s[n..][k] == '\r' && s[n..][k + 1] == '\n';
    assert s[n + k] == '\r' && s[n + k + 1] == '\n';
  }

  lemma {:induction false} NoStrayReturns(s: string)
    requires !HasCrLf(s) && !EndsInCr(s)
    ensures forall i :: 0 <= i < |LinesOf(s)| ==> !EndsInCr(LinesOf(s)[i])
    decreases |s|
  {
    if s != [] {
      var i := LineEnd(s);
      if i < |s| {
        var rest := s[i + 1..];
        assert i > 0 ==> s[..i][i - 1] == s[i - 1] && s[i - 1 + 1] == '\n';
        if HasCrLf(rest) {
          SuffixHasCrLf(s, i + 1);
        }
        NoStrayReturns(rest);
        assert forall k :: 1 <= k < |LinesOf(s)| ==> LinesOf(s)[k] == LinesOf(rest)[k - 1];
      }
    }
  }

  // ---------- Words ----------

  function WordLength(s: string): (n: nat)
    requires s != [] && !IsSpace(s[0])
    ensures 1 <= n <= |s|
    ensures forall i :: 0 <= i < n ==> !IsSpace(s[i])
    ensures n < |s| ==> IsSpace(s[n])
  {
    if |s| == 1 || IsSpace(s[1]) then 1 else 1 + WordLength(s[1..])
  }

  /** `split_whitespace`. */
  function Words(s: string): seq<string>
    decreases |s|
  {
    if s == [] then []
    else if IsSpace(s[0]) then Words(s[1..])
    else [s[..WordLength(s)]] + Words(s[WordLength(s)..])
  }

  predicate Word(s: string) {
    s != [] && forall i :: 0 <= i < |s| ==> !IsSpace(s[i])
  }

  lemma {:induction false} WordLengthIs(s: string, n: nat)
    requires 1 <= n <= |s| && (forall i :: 0 <= i < n ==> !IsSpace(s[i])) && (n < |s| ==> IsSpace(s[n]))
    ensures WordLength(s) == n
  {
  }

  lemma WordsOfPair(a: string, b: string)
    requires Word(a) && Word(b)
    ensures Words(a + " " + b) == [a, b]
  {
    var s := a + " " + b;
    assert forall i :: 0 <= i < |a| ==> s[i] == a[i];
    assert s[|a|] == ' ';
    WordLengthIs(s, |a|);
    var rest := s[|a|..];
    assert s[..|a|] == a && rest == " " + b && rest[1..] == b;
    WordLengthIs(b, |b|);
    assert b[..|b|] == b && b[|b|..] == [];
    assert Words(b) == [b] + Words([]);
    assert Words(rest) == Words(b);
  }

  /** The part of a line before its comment. */
  function Content(line: string): string {
    if line == [] || line[0] == '#' then [] else [line[0]] + Content(line[1..])
  }

  lemma {:induction false} ContentWithoutComment(line: string)
    requires '#' !in line
    ensures Content(line) == line
  {
    if line != [] {
      assert line[0] in line;
      ContentWithoutComment(line[1..]);
    }
  }

  // ---------- Markers ----------

  function Begin(tag: string): string {
    "# >>> azbridge " + tag + " >>>"
  }

  function End(tag: string): string {
    "# <<< azbridge " + tag + " <<<"
  }

  function DisabledPrefix(tag: string): string {
    "#azbridge-disabled[" + tag + "]: "
  }

  predicate ValidTag(tag: string) {
    1 <= |tag| <= 64 && forall i :: 0 <= i < |tag| ==> IsAlphanumeric(tag[i]) || tag[i] in "-_."
  }

  function EntryLine(ip: string, name: string): string {
    ip + " " + name
  }

  // ---------- The operations, line by line ----------

  function Undisable(line: string, tag: string): string {
    if DisabledPrefix(tag) <= line then line[|DisabledPrefix(tag)|..] else line
  }

  /** Strip the tag's block and restore the lines it disabled; `inside` says where reading starts. */
  function Unblock(lines: seq<string>, tag: string, inside: bool): seq<string> {
    if lines == [] then []
    else if Trim(lines[0]) == Begin(tag) then Unblock(lines[1..], tag, true)
    else if Trim(lines[0]) == End(tag) then Unblock(lines[1..], tag, false)
    else (if inside then [] else [Undisable(lines[0], tag)]) + Unblock(lines[1..], tag, inside)
  }

  function DropBlank(lines: seq<string>): (r: seq<string>)
    ensures r == [] || r[|r| - 1] != []
    ensures |r| <= |lines| && r == lines[..|r|]
  {
    if lines != [] && lines[|lines| - 1] == [] then DropBlank(lines[..|lines| - 1]) else lines
  }

  function RemoveLines(lines: seq<string>, tag: string): seq<string> {
    DropBlank(Unblock(lines, tag, false))
  }

  function RemoveText(text: string, tag: string): string {
    Unlines(RemoveLines(LinesOf(text), tag), NewlineOf(text))
  }

  /** An active line that maps one of the names, wherever it stands. */
  predicate Conflicting(line: string, names: set<string>) {
    var words := Words(Content(line));
    exists i :: 1 <= i < |words| && NormalizeHostname(words[i]) in names
  }

  function DisableLine(line: string, tag: string, names: set<string>): string {
    if Conflicting(line, names) then DisabledPrefix(tag) + line else line
  }

  function DisableLines(lines: seq<string>, tag: string, names: set<string>): (r: seq<string>)
    ensures |r| == |lines| && forall i :: 0 <= i < |lines| ==> r[i] == DisableLine(lines[i], tag, names)
  {
    seq(|lines|, i requires 0 <= i < |lines| => DisableLine(lines[i], tag, names))
  }

  predicate AnyConflict(lines: seq<string>, names: set<string>) {
    exists i :: 0 <= i < |lines| && Conflicting(lines[i], names)
  }

  function EntryLines(order: seq<string>, addresses: map<string, string>): (r: seq<string>)
    requires forall n :: n in order ==> n in addresses
    ensures |r| == |order| && forall i :: 0 <= i < |order| ==> r[i] == EntryLine(addresses[order[i]], order[i])
  {
    seq(|order|, i requires 0 <= i < |order| => EntryLine(addresses[order[i]], order[i]))
  }

  /** The tag's block; `order` is the order in which the map is walked. */
  function BlockLines(tag: string, order: seq<string>, addresses: map<string, string>): seq<string>
    requires forall n :: n in order ==> n in addresses
  {
    [Begin(tag)] + EntryLines(order, addresses) + [End(tag)]
  }

  /** A blank last line is a line ending already written. */
  function WithoutLastBlank(lines: seq<string>): seq<string> {
    if lines != [] && lines[|lines| - 1] == [] then lines[..|lines| - 1] else lines
  }

  /** The merged lines, or none when a conflict stands in the way. */
  function MergeLines(base: seq<string>, tag: string, order: seq<string>, addresses: map<string, string>, replace: bool)
    : Option<seq<string>>
    requires forall n :: n in order ==> n in addresses
  {
    if AnyConflict(base, addresses.Keys) && !replace then None
    else Some(WithoutLastBlank(DisableLines(base, tag, addresses.Keys)) + BlockLines(tag, order, addresses))
  }

  function MergeText(text: string, tag: string, order: seq<string>, addresses: map<string, string>, replace: bool)
    : Option<string>
    requires forall n :: n in order ==> n in addresses
  {
    match MergeLines(LinesOf(RemoveText(text, tag)), tag, order, addresses, replace)
    case None => None
    case Some(lines) => Some(Unlines(lines, NewlineOf(text)))
  }

  /** Addresses recorded in the tag's block; a later entry for a name replaces an earlier one. */
  function Entries(lines: seq<string>, tag: string, inside: bool, found: map<string, string>): map<string, string> {
    if lines == [] then found
    else
      var line := Trim(lines[0]);
      if line == Begin(tag) then Entries(lines[1..], tag, true, found)
      else if line == End(tag) then Entries(lines[1..], tag, false, found)
      else Entries(lines[1..], tag, inside, if inside then Recorded(line, found) else found)
  }

  function Recorded(line: string, found: map<string, string>): map<string, string> {
    var words := Words(line);
    if |words| >= 2 then found[NormalizeHostname(words[1]) := words[0]] else found
  }

  function ExistingEntries(text: string, tag: string): map<string, string> {
    Entries(LinesOf(text), tag, false, map[])
  }

  // ---------- The algorithms ----------

  method ReadEntries(text: string, tag: string) returns (entries: map<string, string>)
    ensures entries == ExistingEntries(text, tag)
  {
    entries := map[];
    var inside := false;
    var lines := LinesOf(text);
    var i := 0;
    while i < |lines|
      invariant 0 <= i <= |lines|
      invariant Entries(lines, tag, false, map[]) == Entries(lines[i..], tag, inside, entries)
    {
      var line := Trim(lines[i]);
      assert lines[i..][0] == lines[i] && lines[i..][1..] == lines[i + 1..];
      if line == Begin(tag) {
        inside := true;
      } else if line == End(tag) {
        inside := false;
      } else if inside {
        var parts := Words(line);
        if |parts| >= 2 {
          entries := entries[NormalizeHostname(parts[1]) := parts[0]];
        }
      }
      i := i + 1;
    }
  }

  method RemoveBlock(text: string, tag: string) returns (r: string)
    ensures r == RemoveText(text, tag)
  {
    var newline := NewlineOf(text);
    var out := KeepOutside(LinesOf(text), tag);
    out := TrimBlank(out);
    r := if out == [] then [] else Join(out, newline) + newline;
    if out != [] {
      JoinIsUnlines(out, newline);
    }
  }

  /** What reading the line at `i` contributes. */
  lemma UnblockStep(lines: seq<string>, i: nat, tag: string, inside: bool)
    requires i < |lines|
    ensures Unblock(lines[i..], tag, inside) ==
            if Trim(lines[i]) == Begin(tag) then Unblock(lines[i + 1..], tag, true)
            else if Trim(lines[i]) == End(tag) then Unblock(lines[i + 1..], tag, false)
            else (if inside then [] else [Undisable(lines[i], tag)]) + Unblock(lines[i + 1..], tag, inside)
  {
    assert lines[i..][0] == lines[i] && lines[i..][1..] == lines[i + 1..];
  }

  lemma Regroup(out: seq<string>, line: string, rest: seq<string>)
    ensures out + ([line] + rest) == (out + [line]) + rest
    ensures out + ([] + rest) == out + rest
  {
  }

  method KeepOutside(lines: seq<string>, tag: string) returns (out: seq<string>)
    ensures out == Unblock(lines, tag, false)
  {
    out := [];
    var inside := false;
    var i := 0;
    assert lines[0..] == lines;
    while i < |lines|
      invariant 0 <= i <= |lines|
      invariant Unblock(lines, tag, false) == out + Unblock(lines[i..], tag, inside)
    {
      var line := Trim(lines[i]);
      UnblockStep(lines, i, tag, inside);
      Regroup(out, Undisable(lines[i], tag), Unblock(lines[i + 1..], tag, inside));
      if line == Begin(tag) {
        inside := true;
      } else if line == End(tag) {
        inside := false;
      } else if !inside {
        out := out + [Undisable(lines[i], tag)];
      }
      i := i + 1;
    }
  }

  method TrimBlank(lines: seq<string>) returns (out: seq<string>)
    ensures out == DropBlank(lines)
  {
    out := lines;
    while out != [] && out[|out| - 1] == []
      invariant DropBlank(out) == DropBlank(lines)
      decreases |out|
    {
      out := out[..|out| - 1];
    }
  }

  /** `lines.join(newline)`. */
  function Join(lines: seq<string>, newline: string): string {
    if lines == [] then []
    else if |lines| == 1 then lines[0]
    else lines[0] + newline + Join(lines[1..], newline)
  }

  lemma {:induction false} JoinIsUnlines(lines: seq<string>, newline: string)
    requires lines != []
    ensures Join(lines, newline) + newline == Unlines(lines, newline)
  {
    if |lines| > 1 {
      JoinIsUnlines(lines[1..], newline);
      assert lines[0] + newline + Join(lines[1..], newline) + newline == lines[0] + newline + (Join(lines[1..], newline) + newline);
    } else {
      assert Unlines(lines[1..], newline) == [];
    }
  }

  lemma {:induction false} UnlinesAppends(a: seq<string>, b: seq<string>, newline: string)
    ensures Unlines(a + b, newline) == Unlines(a, newline) + Unlines(b, newline)
  {
    if a == [] {
      assert a + b == b;
    } else {
      UnlinesAppends(a[1..], b, newline);
      assert (a + b)[0] == a[0] && (a + b)[1..] == a[1..] + b;
      Concatenated(a[0] + newline, Unlines(a[1..], newline), Unlines(b, newline));
    }
  }

  lemma Concatenated(a: string, b: string, c: string)
    ensures a + (b + c) == (a + b) + c
  {
  }

  /** Ending a text with a blank line ends its last line. */
  lemma {:induction false} JoinWithBlank(lines: seq<string>, newline: string)
    ensures Join(lines + [[]], newline) == Unlines(lines, newline)
  {
    if lines != [] {
      JoinWithBlank(lines[1..], newline);
      assert (lines + [[]])[1..] == lines[1..] + [[]];
    }
  }

  predicate EndsWith(s: string, suffix: string) {
    |suffix| <= |s| && s[|s| - |suffix|..] == suffix
  }

  lemma SuffixEndsWith(a: string, b: string, suffix: string)
    requires EndsWith(b, suffix)
    ensures EndsWith(a + b, suffix)
  {
    var all := a + b;
    assert all[|all| - |suffix|..] == b[|b| - |suffix|..];
  }

  lemma {:induction false} UnlinesEndsWith(lines: seq<string>, newline: string)
    requires lines != []
    ensures EndsWith(Unlines(lines, newline), newline)
  {
    var line, rest := lines[0], Unlines(lines[1..], newline);
    if |lines| > 1 {
      UnlinesEndsWith(lines[1..], newline);
      SuffixEndsWith(line + newline, rest, newline);
    } else {
      assert rest == [] && (line + newline) + rest == line + newline;
      SuffixEndsWith(line, newline, newline);
    }
  }

  method RenderBlock(tag: string, order: seq<string>, addresses: map<string, string>, newline: string) returns (r: string)
    requires forall n :: n in order ==> n in addresses
    ensures r == Unlines(BlockLines(tag, order, addresses), newline)
  {
    var lines := [Begin(tag)] + EntryLines(order, addresses) + [End(tag)];
    r := Join(lines, newline) + newline;
    JoinIsUnlines(lines, newline);
  }

  /** The positions that are set, in order. */
  function Positions(flags: seq<bool>): (r: seq<nat>)
    ensures forall i :: i in r <==> 0 <= i < |flags| && flags[i]
    ensures forall j, k :: 0 <= j < k < |r| ==> r[j] < r[k]
  {
    if flags == [] then []
    else
      var last := |flags| - 1;
      var before := Positions(flags[..last]);
      assert forall j :: 0 <= j < |before| ==> before[j] in before;
      if flags[last] then before + [last] else before
  }

  /** The positions of the conflicting lines. */
  function Conflicts(lines: seq<string>, names: set<string>): seq<nat> {
    Positions(seq(|lines|, i requires 0 <= i < |lines| => Conflicting(lines[i], names)))
  }

  method CommentOut(lines: seq<string>, tag: string, found: seq<nat>) returns (out: seq<string>)
    requires forall i :: i in found ==> i < |lines|
    requires forall j, k :: 0 <= j < k < |found| ==> found[j] < found[k]
    ensures |out| == |lines|
    ensures forall i :: 0 <= i < |lines| ==> out[i] == if i in found then DisabledPrefix(tag) + lines[i] else lines[i]
  {
    out := lines;
    var k := 0;
    while k < |found|
      invariant 0 <= k <= |found| && |out| == |lines|
      invariant forall i :: 0 <= i < |lines| ==>
                  out[i] == if i in found[..k] then DisabledPrefix(tag) + lines[i] else lines[i]
    {
      var index := found[k];
      assert index in found && index !in found[..k];
      assert found[..k + 1] == found[..k] + [index];
      out := out[index := DisabledPrefix(tag) + out[index]];
      k := k + 1;
    }
    assert found[..|found|] == found;
  }

  lemma ConflictsAreConflicting(lines: seq<string>, names: set<string>)
    ensures forall i :: i in Conflicts(lines, names) <==> 0 <= i < |lines| && Conflicting(lines[i], names)
    ensures Conflicts(lines, names) != [] <==> AnyConflict(lines, names)
  {
    if Conflicts(lines, names) != [] {
      assert Conflicts(lines, names)[0] in Conflicts(lines, names);
    }
  }

  /** Join the lines so that the text, unless empty, ends with a line ending. */
  method JoinEnded(lines: seq<string>, newline: string) returns (result: string)
    ensures result == Unlines(WithoutLastBlank(lines), newline)
  {
    ghost var kept := WithoutLastBlank(lines);
    var ended := lines;
    if lines != [] && lines[|lines| - 1] != [] {
      ended := ended + [[]];
    }
    assert ended == if lines == [] then [] else kept + [[]];
    result := Join(ended, newline);
    if lines != [] {
      JoinWithBlank(kept, newline);
    }
    if kept != [] {
      UnlinesEndsWith(kept, newline);
    }
    if result != [] && !EndsWith(result, newline) {
      result := result + newline;
    }
  }

  lemma CommentedOut(lines: seq<string>, tag: string, names: set<string>, out: seq<string>)
    requires |out| == |lines|
    requires forall i :: 0 <= i < |lines| ==>
               out[i] == if i in Conflicts(lines, names) then DisabledPrefix(tag) + lines[i] else lines[i]
    ensures out == DisableLines(lines, tag, names)
  {
    ConflictsAreConflicting(lines, names);
    forall i | 0 <= i < |lines| ensures out[i] == DisableLine(lines[i], tag, names) {
    }
  }

  method MergeBlock(text: string, tag: string, order: seq<string>, addresses: map<string, string>, replace: bool)
    returns (r: Option<string>)
    requires forall n :: n in order ==> n in addresses
    ensures r == MergeText(text, tag, order, addresses, replace)
  {
    var newline := NewlineOf(text);
    var base := RemoveBlock(text, tag);
    var lines := LinesOf(base);
    var found := Conflicts(lines, addresses.Keys);
    ConflictsAreConflicting(lines, addresses.Keys);
    if found != [] && !replace {
      return None;
    }
    var disabled := CommentOut(lines, tag, found);
    CommentedOut(lines, tag, addresses.Keys, disabled);
    lines := disabled;
    var result := JoinEnded(lines, newline);
    var block := RenderBlock(tag, order, addresses, newline);
    UnlinesAppends(WithoutLastBlank(lines), BlockLines(tag, order, addresses), newline);
    r := Some(result + block);
  }
}
