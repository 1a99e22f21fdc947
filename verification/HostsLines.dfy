/** What the operations on a hosts file do to its lines, in terms of characters and positions. */
module HostsLines {
  import opened Util
  import opened HostNames
  import opened HostsText

  // ---------- Words ----------

  /** `s[k..m]` is a word: it holds no white space, and white space or the ends of `s` are around it. */
  predicate WordAt(s: string, k: int, m: int) {
    && 0 <= k < m <= |s| && (k == 0 || IsSpace(s[k - 1])) && (m == |s| || IsSpace(s[m]))
    && forall i :: k <= i < m ==> !IsSpace(s[i])
  }

  /** Something stands before position `k`. */
  predicate Behind(s: string, k: int) {
    exists h :: 0 <= h < k && h < |s| && !IsSpace(s[h])
  }

  /** Words and what stands before them, seen from a place that no word crosses. */
  lemma Shifted(s: string, n: nat, k: int, m: int)
    requires n <= |s| && 0 <= k <= m <= |s| - n && (k == 0 && n > 0 ==> IsSpace(s[n - 1]))
    ensures WordAt(s[n..], k, m) <==> WordAt(s, n + k, n + m)
    ensures s[n..][k..m] == s[n + k..n + m]
  {
    assert forall i :: 0 <= i < |s| - n ==> s[n..][i] == s[n + i];
    if WordAt(s, n + k, n + m) {
      assert forall i :: k <= i < m ==> s[n..][i] == s[n + i];
    }
    if WordAt(s[n..], k, m) {
      assert forall i :: n + k <= i < n + m ==> s[i] == s[n..][i - n];
    }
  }

  lemma FirstBehind(s: string, k: int)
    requires s != [] && !IsSpace(s[0]) && k > 0
    ensures Behind(s, k)
  {
  }

  /** A blank in front changes nothing. */
  lemma BlankInFront(s: string, k: int)
    requires s != [] && IsSpace(s[0]) && k >= 0
    ensures Behind(s, k + 1) <==> Behind(s[1..], k)
  {
    if Behind(s, k + 1) {
      var h :| 0 <= h < k + 1 && h < |s| && !IsSpace(s[h]);
      assert s[1..][h - 1] == s[h];
    }
    if Behind(s[1..], k) {
      var h :| 0 <= h < k && h < |s[1..]| && !IsSpace(s[1..][h]);
      assert s[h + 1] == s[1..][h];
    }
  }

  lemma {:induction false} WordsAreStretches(s: string, i: nat) returns (k: nat, m: nat)
    requires i < |Words(s)|
    ensures WordAt(s, k, m) && Words(s)[i] == s[k..m] && (i > 0 ==> Behind(s, k))
    decreases |s|
  {
    if IsSpace(s[0]) {
      var rest := s[1..];
      assert Words(s) == Words(rest);
      k, m := WordsAreStretches(rest, i);
      Shifted(s, 1, k, m);
      BlankInFront(s, k);
      k, m := k + 1, m + 1;
    } else if i == 0 {
      k, m := 0, WordLength(s);
      assert Words(s)[0] == s[..m];
    } else {
      k, m := LaterWord(s, i);
    }
  }

  lemma {:induction false} LaterWord(s: string, i: nat) returns (k: nat, m: nat)
    requires 0 < i < |Words(s)| && !IsSpace(s[0])
    ensures WordAt(s, k, m) && Words(s)[i] == s[k..m] && Behind(s, k)
    decreases |s|, 0
  {
    var n := WordLength(s);
    var rest := s[n..];
    assert Words(s) == [s[..n]] + Words(rest);
    k, m := WordsAreStretches(rest, i - 1);
    assert rest[0] == s[n];
    Shifted(s, n, k, m);
    k, m := k + n, m + n;
    FirstBehind(s, k);
  }

  lemma {:induction false} StretchesAreWords(s: string, k: nat, m: nat) returns (i: nat)
    requires WordAt(s, k, m)
    ensures i < |Words(s)| && Words(s)[i] == s[k..m] && (i > 0 <==> Behind(s, k))
    decreases |s|
  {
    if IsSpace(s[0]) {
      assert k > 0;
      Shifted(s, 1, k - 1, m - 1);
      BlankInFront(s, k - 1);
      i := StretchesAreWords(s[1..], k - 1, m - 1);
    } else if k == 0 {
      WordLengthIs(s, m);
      i := 0;
    } else {
      i := LaterStretch(s, k, m);
    }
  }

  lemma {:induction false} LaterStretch(s: string, k: nat, m: nat) returns (i: nat)
    requires WordAt(s, k, m) && k > 0 && !IsSpace(s[0])
    ensures 0 < i < |Words(s)| && Words(s)[i] == s[k..m] && Behind(s, k)
    decreases |s|, 0
  {
    var n := WordLength(s);
    FirstBehind(s, k);
    assert IsSpace(s[k - 1]);
    assert k - 1 >= n;
    var rest := s[n..];
    Shifted(s, n, k - n, m - n);
    i := StretchesAreWords(rest, k - n, m - n);
    assert Words(s) == [s[..n]] + Words(rest);
    i := i + 1;
  }

  // ---------- Conflicts ----------

  lemma {:induction false} ContentIsPrefix(line: string) returns (c: nat)
    ensures c <= |line| && Content(line) == line[..c]
    ensures (forall i :: 0 <= i < c ==> line[i] != '#') && (c < |line| ==> line[c] == '#')
  {
    if line == [] || line[0] == '#' {
      c := 0;
    } else {
      c := ContentIsPrefix(line[1..]);
      assert line[..c + 1] == [line[0]] + line[1..][..c];
      assert forall i :: 1 <= i < c + 1 ==> line[i] == line[1..][i - 1];
      c := c + 1;
    }
  }

  /**
    A line conflicts exactly when some word before its first comment sign, other than the first word,
    normalizes to one of the names.
  */
  lemma ConflictingExactly(line: string, names: set<string>)
    ensures Conflicting(line, names) <==>
              exists k, m ::
                && 0 < k < m <= |line| && IsSpace(line[k - 1])
                && (m == |line| || IsSpace(line[m]) || line[m] == '#')
                && (forall i :: k <= i < m ==> !IsSpace(line[i]))
                && (forall i :: 0 <= i < m ==> line[i] != '#')
                && (exists h :: 0 <= h < k && !IsSpace(line[h]))
                && NormalizeHostname(line[k..m]) in names
  {
    if Conflicting(line, names) {
      var k, m := ConflictHasWord(line, names);
    }
    forall k, m |
      && 0 < k < m <= |line| && IsSpace(line[k - 1])
      && (m == |line| || IsSpace(line[m]) || line[m] == '#')
      && (forall i :: k <= i < m ==> !IsSpace(line[i]))
      && (forall i :: 0 <= i < m ==> line[i] != '#')
      && (exists h :: 0 <= h < k && !IsSpace(line[h]))
      && NormalizeHostname(line[k..m]) in names
      ensures Conflicting(line, names)
    {
      WordConflicts(line, names, k, m);
    }
  }

  lemma ConflictHasWord(line: string, names: set<string>) returns (k: nat, m: nat)
    requires Conflicting(line, names)
    ensures 0 < k < m <= |line| && IsSpace(line[k - 1])
    ensures m == |line| || IsSpace(line[m]) || line[m] == '#'
    ensures forall i :: k <= i < m ==> !IsSpace(line[i])
    ensures forall i :: 0 <= i < m ==> line[i] != '#'
    ensures exists h :: 0 <= h < k && !IsSpace(line[h])
    ensures NormalizeHostname(line[k..m]) in names
  {
    var c := ContentIsPrefix(line);
    var words := Words(Content(line));
    var i :| 1 <= i < |words| && NormalizeHostname(words[i]) in names;
    k, m := WordsAreStretches(line[..c], i);
    assert forall i :: 0 <= i < m ==> line[..c][i] == line[i];
    InContent(line, c, k, m);
  }

  lemma WordConflicts(line: string, names: set<string>, k: nat, m: nat)
    requires 0 < k < m <= |line| && IsSpace(line[k - 1])
    requires m == |line| || IsSpace(line[m]) || line[m] == '#'
    requires forall i :: k <= i < m ==> !IsSpace(line[i])
    requires forall i :: 0 <= i < m ==> line[i] != '#'
    requires exists h :: 0 <= h < k && !IsSpace(line[h])
    requires NormalizeHostname(line[k..m]) in names
    ensures Conflicting(line, names)
  {
    var c := ContentIsPrefix(line);
    InContent(line, c, k, m);
    var i := StretchesAreWords(line[..c], k, m);
  }

  /** Words of the content, seen in the line. */
  lemma InContent(line: string, c: nat, k: int, m: int)
    requires c <= |line| && (forall i :: 0 <= i < c ==> line[i] != '#') && (c < |line| ==> line[c] == '#')
    requires 0 <= k < m <= |line| && forall i :: 0 <= i < m ==> line[i] != '#'
    ensures m <= c && line[..c][k..m] == line[k..m]
    ensures WordAt(line[..c], k, m) <==>
              && (k == 0 || IsSpace(line[k - 1])) && (m == |line| || IsSpace(line[m]) || line[m] == '#')
              && forall i :: k <= i < m ==> !IsSpace(line[i])
    ensures Behind(line[..c], k) <==> exists h :: 0 <= h < k && !IsSpace(line[h])
  {
    assert m <= c;
    var content := line[..c];
    assert forall i :: 0 <= i < c ==> content[i] == line[i];
    assert !IsSpace('#');
    if h :| 0 <= h < k && !IsSpace(line[h]) {
      assert !IsSpace(content[h]);
    }
  }

  // ---------- Blocks ----------

  /** A line with the text `begin` stands before line `i`, and none with the text `end` in between. */
  predicate InBlock(lines: seq<string>, begin: string, end: string, i: int) {
    exists j :: 0 <= j < i && j < |lines| && Trim(lines[j]) == begin && Open(lines, end, j, i)
  }

  predicate Open(lines: seq<string>, end: string, j: int, i: int) {
    forall k :: 0 <= j < k < i && k < |lines| ==> Trim(lines[k]) != end
  }

  lemma BlockStep(lines: seq<string>, begin: string, end: string, i: nat)
    requires i < |lines| && begin != end
    ensures InBlock(lines, begin, end, i + 1) <==>
              Trim(lines[i]) == begin || (Trim(lines[i]) != end && InBlock(lines, begin, end, i))
  {
    if Trim(lines[i]) == begin {
      assert Open(lines, end, i, i + 1);
    }
    if j :| 0 <= j < i && j < |lines| && Trim(lines[j]) == begin && Open(lines, end, j, i) && Trim(lines[i]) != end {
      assert Open(lines, end, j, i + 1);
    }
    if j :| 0 <= j < i + 1 && j < |lines| && Trim(lines[j]) == begin && Open(lines, end, j, i + 1) && Trim(lines[i]) != begin {
      assert Open(lines, end, j, i);
    }
  }

  lemma MarkersDiffer(tag: string)
    ensures "# >>> azbridge " + tag + " >>>" != "# <<< azbridge " + tag + " <<<"
  {
    assert ("# >>> azbridge " + tag + " >>>")[2] == '>' && ("# <<< azbridge " + tag + " <<<")[2] == '<';
  }

  /** Line `i` is outside the block and none of its markers. */
  predicate Outside(lines: seq<string>, begin: string, end: string, i: int) {
    0 <= i < |lines| && Trim(lines[i]) != begin && Trim(lines[i]) != end && !InBlock(lines, begin, end, i)
  }

  function Unmarked(line: string, mark: string): string {
    if mark <= line then line[|mark|..] else line
  }

  /** The values from position `n` on whose flag is set, and their positions. */
  function Picked(flags: seq<bool>, values: seq<string>, n: nat): seq<string>
    requires n <= |flags| == |values|
    decreases |flags| - n
  {
    if n == |flags| then [] else (if flags[n] then [values[n]] else []) + Picked(flags, values, n + 1)
  }

  function PickedAt(flags: seq<bool>, n: nat): seq<nat>
    requires n <= |flags|
    decreases |flags| - n
  {
    if n == |flags| then [] else (if flags[n] then [n] else []) + PickedAt(flags, n + 1)
  }

  /** Exactly these positions, in order. */
  lemma {:induction false} PickedAtExactly(flags: seq<bool>, n: nat)
    requires n <= |flags|
    ensures var r := PickedAt(flags, n);
            && (forall i :: i in r <==> n <= i < |flags| && flags[i])
            && (forall j, k :: 0 <= j < k < |r| ==> r[j] < r[k])
    decreases |flags| - n
  {
    if n < |flags| {
      PickedAtExactly(flags, n + 1);
      var rest := PickedAt(flags, n + 1);
      forall k | 0 <= k < |rest| ensures n < rest[k] {
        assert rest[k] in rest;
      }
      assert flags[n] ==> PickedAt(flags, n) == [n] + rest;
      assert !flags[n] ==> PickedAt(flags, n) == rest;
    }
  }

  lemma {:induction false} PickedThere(flags: seq<bool>, values: seq<string>, n: nat)
    requires n <= |flags| == |values|
    ensures Correspond(Picked(flags, values, n), values, PickedAt(flags, n))
    decreases |flags| - n
  {
    if n < |flags| {
      PickedThere(flags, values, n + 1);
      var all, at := Picked(flags, values, n + 1), PickedAt(flags, n + 1);
      if flags[n] {
        OneInFront(all, values, at, n);
      } else {
        assert [] + all == all && [] + at == at;
      }
    }
  }

  /** `all` has the values at these positions, in this order. */
  predicate Correspond(all: seq<string>, values: seq<string>, at: seq<nat>) {
    |all| == |at| && forall j :: 0 <= j < |all| ==> at[j] < |values| && all[j] == values[at[j]]
  }

  lemma OneInFront(all: seq<string>, values: seq<string>, at: seq<nat>, n: nat)
    requires Correspond(all, values, at) && n < |values|
    ensures Correspond([values[n]] + all, values, [n] + at)
  {
    forall j | 0 <= j < |all| + 1
      ensures ([n] + at)[j] < |values| && ([values[n]] + all)[j] == values[([n] + at)[j]]
    {
      if j > 0 {
        assert ([values[n]] + all)[j] == all[j - 1] && ([n] + at)[j] == at[j - 1];
      }
    }
  }

  /** Reading one line, in these terms. */
  lemma UnblockOne(lines: seq<string>, tag: string, begin: string, end: string, mark: string, n: nat)
    requires begin == Begin(tag) && end == End(tag) && mark == DisabledPrefix(tag) && n < |lines|
    ensures Unblock(lines[n..], tag, InBlock(lines, begin, end, n)) ==
            (if Outside(lines, begin, end, n) then [Unmarked(lines[n], mark)] else [])
            + Unblock(lines[n + 1..], tag, InBlock(lines, begin, end, n + 1))
  {
    MarkersDiffer(tag);
    UnblockStep(lines, n, tag, InBlock(lines, begin, end, n));
    BlockStep(lines, begin, end, n);
  }

  lemma {:induction false} UnblockFrom(lines: seq<string>, tag: string, begin: string, end: string, mark: string, n: nat,
                                       flags: seq<bool>, values: seq<string>)
    requires begin == Begin(tag) && end == End(tag) && mark == DisabledPrefix(tag)
    requires n <= |lines| == |flags| == |values|
    requires forall i :: 0 <= i < |lines| ==> flags[i] == Outside(lines, begin, end, i) && values[i] == Unmarked(lines[i], mark)
    ensures Unblock(lines[n..], tag, InBlock(lines, begin, end, n)) == Picked(flags, values, n)
    decreases |lines| - n
  {
    if n < |lines| {
      UnblockOne(lines, tag, begin, end, mark, n);
      UnblockFrom(lines, tag, begin, end, mark, n + 1, flags, values);
    }
  }

  /**
    What removing a tag keeps: the lines, in order, that are neither its markers nor inside its block,
    each without the mark that the tag put in front of it.
  */
  lemma KeptLines(lines: seq<string>, tag: string, begin: string, end: string, mark: string) returns (kept: seq<nat>)
    requires begin == "# >>> azbridge " + tag + " >>>" && end == "# <<< azbridge " + tag + " <<<"
    requires mark == "#azbridge-disabled[" + tag + "]: "
    ensures forall j, k :: 0 <= j < k < |kept| ==> kept[j] < kept[k]
    ensures forall i :: i in kept <==>
              0 <= i < |lines| && Trim(lines[i]) != begin && Trim(lines[i]) != end && !InBlock(lines, begin, end, i)
    ensures var out := Unblock(lines, tag, false);
            && |out| == |kept|
            && forall j :: 0 <= j < |out| ==>
                 && kept[j] < |lines|
                 && out[j] == if mark <= lines[kept[j]] then lines[kept[j]][|mark|..] else lines[kept[j]]
  {
    var flags := seq(|lines|, i requires 0 <= i < |lines| => Outside(lines, begin, end, i));
    var values := seq(|lines|, i requires 0 <= i < |lines| => Unmarked(lines[i], mark));
    assert lines[0..] == lines;
    UnblockFrom(lines, tag, begin, end, mark, 0, flags, values);
    PickedThere(flags, values, 0);
    PickedAtExactly(flags, 0);
    kept := PickedAt(flags, 0);
  }

  /** The blank lines at the end go, and nothing else. */
  lemma {:induction false} OnlyBlankDropped(lines: seq<string>)
    ensures var r := DropBlank(lines);
            && |r| <= |lines| && r == lines[..|r|] && (r == [] || r[|r| - 1] != [])
            && forall i :: |r| <= i < |lines| ==> lines[i] == []
  {
    if lines != [] && lines[|lines| - 1] == [] {
      OnlyBlankDropped(lines[..|lines| - 1]);
    }
  }

  // ---------- Merging ----------

  /** A line that conflicts stands in the way of a merge without replacement. */
  lemma ConflictRefuses(text: string, lines: seq<string>, tag: string, order: seq<string>, addresses: map<string, string>, i: nat)
    requires lines == LinesOf(RemoveText(text, tag)) && forall n :: n in order ==> n in addresses
    requires i < |lines| && Conflicting(lines[i], addresses.Keys)
    ensures MergeText(text, tag, order, addresses, false).None?
  {
    assert AnyConflict(lines, addresses.Keys);
  }

  /**
    Nothing else does. The lines of the merged text are those left by the removal, the conflicting ones marked,
    and then the block.
  */
  lemma MergedLines(text: string, lines: seq<string>, tag: string, order: seq<string>, addresses: map<string, string>,
                    replace: bool) returns (kept: seq<string>)
    requires lines == LinesOf(RemoveText(text, tag)) && forall n :: n in order ==> n in addresses
    requires replace || forall i :: 0 <= i < |lines| ==> !Conflicting(lines[i], addresses.Keys)
    ensures MergeText(text, tag, order, addresses, replace) ==
            Some(Unlines(kept + BlockLines(tag, order, addresses), if HasCrLf(text) then "\r\n" else "\n"))
    ensures |kept| == |lines| || (|kept| == |lines| - 1 && lines[|kept|] == "")
    ensures forall i :: 0 <= i < |kept| ==>
              kept[i] == if Conflicting(lines[i], addresses.Keys)
                         then "#azbridge-disabled[" + tag + "]: " + lines[i] else lines[i]
  {
    kept := MarkedLines(lines, tag, addresses.Keys);
  }

  /** The lines of a block: its markers around one line for each name, the address first. */
  lemma BlockExactly(tag: string, order: seq<string>, addresses: map<string, string>)
    requires forall n :: n in order ==> n in addresses
    ensures var block := BlockLines(tag, order, addresses);
            && |block| == |order| + 2
            && block[0] == "# >>> azbridge " + tag + " >>>" && block[|order| + 1] == "# <<< azbridge " + tag + " <<<"
            && forall k :: 0 <= k < |order| ==> block[k + 1] == addresses[order[k]] + " " + order[k]
  {
  }

  lemma MarkedLines(lines: seq<string>, tag: string, names: set<string>) returns (kept: seq<string>)
    ensures kept == WithoutLastBlank(DisableLines(lines, tag, names))
    ensures |kept| == |lines| || (|kept| == |lines| - 1 && lines[|kept|] == "")
    ensures forall i :: 0 <= i < |kept| ==>
              kept[i] == if Conflicting(lines[i], names) then "#azbridge-disabled[" + tag + "]: " + lines[i] else lines[i]
  {
    kept := WithoutLastBlank(DisableLines(lines, tag, names));
    assert Words(Content([])) == [];
  }

  // ---------- Recorded entries ----------

  /** Line `i` of the block records an address for `name`. */
  predicate Records(lines: seq<string>, begin: string, end: string, i: int, name: string) {
    && 0 <= i < |lines| && InBlock(lines, begin, end, i)
    && var line := Trim(lines[i]);
       && line != begin && line != end && |Words(line)| >= 2 && NormalizeHostname(Words(line)[1]) == name
  }

  /** The last hit before `n`, if there is one, is where `value` comes from. */
  predicate Latest(hits: seq<bool>, values: seq<string>, n: int, has: bool, value: string)
    requires |values| == |hits|
  {
    if has
    then exists i :: 0 <= i < n <= |hits| && hits[i] && value == values[i] && forall j :: i < j < n ==> !hits[j]
    else forall i :: 0 <= i < n <= |hits| ==> !hits[i]
  }

  lemma OneMoreHit(hits: seq<bool>, values: seq<string>, n: nat, has: bool, value: string)
    requires n < |hits| == |values| && Latest(hits, values, n, has, value)
    ensures Latest(hits, values, n + 1, has || hits[n], if hits[n] then values[n] else value)
  {
  }

  function FirstWord(line: string): string {
    if Words(Trim(line)) == [] then "" else Words(Trim(line))[0]
  }

  /** What reading line `n` makes of the entries found before. */
  function FoundAfter(lines: seq<string>, begin: string, end: string, n: nat, found: map<string, string>): map<string, string>
    requires n < |lines|
  {
    if InBlock(lines, begin, end, n) && Trim(lines[n]) != begin && Trim(lines[n]) != end
    then Recorded(Trim(lines[n]), found) else found
  }

  lemma RecordedHere(lines: seq<string>, begin: string, end: string, n: nat, found: map<string, string>, name: string)
    requires n < |lines|
    ensures var after := FoundAfter(lines, begin, end, n, found);
            if Records(lines, begin, end, n, name) then name in after && after[name] == FirstWord(lines[n])
            else (name in after <==> name in found) && (name in found ==> after[name] == found[name])
  {
  }

  lemma EntriesOne(lines: seq<string>, tag: string, begin: string, end: string, n: nat, found: map<string, string>)
    requires begin == Begin(tag) && end == End(tag) && n < |lines|
    ensures Entries(lines[n..], tag, InBlock(lines, begin, end, n), found) ==
            Entries(lines[n + 1..], tag, InBlock(lines, begin, end, n + 1), FoundAfter(lines, begin, end, n, found))
  {
    MarkersDiffer(tag);
    BlockStep(lines, begin, end, n);
    assert lines[n..][0] == lines[n] && lines[n..][1..] == lines[n + 1..];
  }

  /** The entries found from line `n` on. */
  function EntriesAt(lines: seq<string>, begin: string, end: string, n: nat, found: map<string, string>): map<string, string>
    requires n <= |lines|
    decreases |lines| - n
  {
    if n == |lines| then found else EntriesAt(lines, begin, end, n + 1, FoundAfter(lines, begin, end, n, found))
  }

  lemma {:induction false} EntriesAlike(lines: seq<string>, tag: string, begin: string, end: string, n: nat,
                                        found: map<string, string>)
    requires begin == Begin(tag) && end == End(tag) && n <= |lines|
    ensures Entries(lines[n..], tag, InBlock(lines, begin, end, n), found) == EntriesAt(lines, begin, end, n, found)
    decreases |lines| - n
  {
    if n < |lines| {
      EntriesOne(lines, tag, begin, end, n, found);
      EntriesAlike(lines, tag, begin, end, n + 1, FoundAfter(lines, begin, end, n, found));
    }
  }

  function ValueOf(found: map<string, string>, name: string): string {
    if name in found then found[name] else ""
  }

  /** What is there after the positions from `n` on, each hit putting its value in place of the one before. */
  function Replayed(hits: seq<bool>, values: seq<string>, n: nat, has: bool, value: string): (bool, string)
    requires n <= |hits| == |values|
    decreases |hits| - n
  {
    if n == |hits| then (has, value)
    else Replayed(hits, values, n + 1, has || hits[n], if hits[n] then values[n] else value)
  }

  lemma {:induction false} ReplayedIsLatest(hits: seq<bool>, values: seq<string>, n: nat, has: bool, value: string)
    requires n <= |hits| == |values| && Latest(hits, values, n, has, value)
    ensures var last := Replayed(hits, values, n, has, value);
            Latest(hits, values, |hits|, last.0, last.1)
    decreases |hits| - n
  {
    if n < |hits| {
      OneMoreHit(hits, values, n, has, value);
      ReplayedIsLatest(hits, values, n + 1, has || hits[n], if hits[n] then values[n] else value);
    }
  }

  /** The same over the lines themselves. */
  function ReplayedLines(lines: seq<string>, begin: string, end: string, name: string, n: nat, has: bool, value: string)
    : (bool, string)
    requires n <= |lines|
    decreases |lines| - n
  {
    if n == |lines| then (has, value)
    else if Records(lines, begin, end, n, name) then ReplayedLines(lines, begin, end, name, n + 1, true, FirstWord(lines[n]))
    else ReplayedLines(lines, begin, end, name, n + 1, has, value)
  }

  lemma {:induction false} ReplayedAlike(lines: seq<string>, begin: string, end: string, name: string, n: nat, has: bool,
                                         value: string, hits: seq<bool>, values: seq<string>)
    requires n <= |lines| == |hits| == |values|
    requires forall i :: 0 <= i < |lines| ==> hits[i] == Records(lines, begin, end, i, name)
    requires forall i :: 0 <= i < |lines| ==> values[i] == FirstWord(lines[i])
    ensures ReplayedLines(lines, begin, end, name, n, has, value) == Replayed(hits, values, n, has, value)
    decreases |lines| - n
  {
    if n < |lines| {
      ReplayedAlike(lines, begin, end, name, n + 1, has || hits[n], if hits[n] then values[n] else value, hits, values);
    }
  }

  lemma {:induction false} EntriesFrom(lines: seq<string>, begin: string, end: string, n: nat, found: map<string, string>,
                                       name: string)
    requires n <= |lines|
    ensures var all := EntriesAt(lines, begin, end, n, found);
            (name in all, ValueOf(all, name)) ==
            ReplayedLines(lines, begin, end, name, n, name in found, ValueOf(found, name))
    decreases |lines| - n
  {
    if n < |lines| {
      RecordedHere(lines, begin, end, n, found, name);
      EntriesFrom(lines, begin, end, n + 1, FoundAfter(lines, begin, end, n, found), name);
    }
  }

  lemma LastEntry(lines: seq<string>, tag: string, begin: string, end: string, name: string) returns (i: int)
    requires begin == Begin(tag) && end == End(tag)
    ensures var found := Entries(lines, tag, false, map[]);
            if name in found
            then Records(lines, begin, end, i, name) && found[name] == FirstWord(lines[i])
            else i == -1
    ensures forall j :: i < j ==> !Records(lines, begin, end, j, name)
  {
    var hits := seq(|lines|, i requires 0 <= i < |lines| => Records(lines, begin, end, i, name));
    var values := seq(|lines|, i requires 0 <= i < |lines| => FirstWord(lines[i]));
    var found := Entries(lines, tag, false, map[]);
    assert lines[0..] == lines;
    EntriesAlike(lines, tag, begin, end, 0, map[]);
    EntriesFrom(lines, begin, end, 0, map[], name);
    ReplayedAlike(lines, begin, end, name, 0, false, "", hits, values);
    ReplayedIsLatest(hits, values, 0, false, "");
    i := -1;
    if name in found {
      i :| 0 <= i < |lines| && hits[i] && found[name] == values[i] && forall j :: i < j < |lines| ==> !hits[j];
    }
    forall j | i < j ensures !Records(lines, begin, end, j, name) {
      assert 0 <= j < |lines| ==> !hits[j];
    }
  }

  /**
    The recorded address of a name is the first word of the last line of the block whose second word is the
    name; without such a line there is none.
  */
  lemma EntriesExactly(text: string, tag: string, begin: string, end: string, name: string) returns (i: int)
    requires begin == "# >>> azbridge " + tag + " >>>" && end == "# <<< azbridge " + tag + " <<<"
    ensures var lines, found := LinesOf(text), ExistingEntries(text, tag);
            && (if name in found then Records(lines, begin, end, i, name) && found[name] == FirstWord(lines[i]) else i == -1)
            && forall j :: i < j ==> !Records(lines, begin, end, j, name)
  {
    i := LastEntry(LinesOf(text), tag, begin, end, name);
  }
}
