/** Host names that can be mapped, and the loopback addresses allocated to them. */
module HostNames {
  import opened Util

  // ---------- White space ----------

  /** The Unicode `White_Space` property. */
  predicate IsSpace(c: char) {
    || '\t' <= c <= '\r' || c == ' ' || c == '\U{85}' || c == '\U{A0}' || c == '\U{1680}'
    || '\U{2000}' <= c <= '\U{200A}' || c == '\U{2028}' || c == '\U{2029}' || c == '\U{202F}'
    || c == '\U{205F}' || c == '\U{3000}'
  }

  /** The first position from `i` on that holds no white space. */
  function SolidFrom(s: string, i: nat): (k: nat)
    requires i <= |s|
    ensures i <= k <= |s| && (k < |s| ==> !IsSpace(s[k]))
    decreases |s| - i
  {
    if i < |s| && IsSpace(s[i]) then SolidFrom(s, i + 1) else i
  }

  /** The end of what is left of `s[..j]` without its trailing white space, not before `i`. */
  function SolidTo(s: string, i: nat, j: nat): (k: nat)
    requires i <= j <= |s|
    ensures i <= k <= j && (k > i ==> !IsSpace(s[k - 1]))
  {
    if i < j && IsSpace(s[j - 1]) then SolidTo(s, i, j - 1) else j
  }

  function Trim(s: string): string {
    var i := SolidFrom(s, 0);
    s[i..SolidTo(s, i, |s|)]
  }

  lemma TrimOfTight(s: string)
    requires s != [] && !IsSpace(s[0]) && !IsSpace(s[|s| - 1])
    ensures Trim(s) == s
  {
  }

  // ---------- Names ----------

  function NormalizeHostname(host: string): string {
    var name := Lower(Trim(host));
    if name != [] && name[|name| - 1] == '.' then name[..|name| - 1] else name
  }

  /** `split('.')`. */
  function Labels(s: string): (r: seq<string>)
    ensures r != []
  {
    if s == [] then [[]]
    else
      var rest := Labels(s[1..]);
      if s[0] == '.' then [[]] + rest else [[s[0]] + rest[0]] + rest[1..]
  }

  predicate IsDigit(c: char) {
    '0' <= c <= '9'
  }

  predicate IsAlphanumeric(c: char) {
    'a' <= c <= 'z' || 'A' <= c <= 'Z' || IsDigit(c)
  }

  predicate LabelChar(c: char) {
    IsAlphanumeric(c) || c == '-' || c == '_'
  }

  predicate ValidLabel(l: string) {
    1 <= |l| <= 63 && (IsAlphanumeric(l[0]) || l[0] == '_') && forall i :: 0 <= i < |l| ==> LabelChar(l[i])
  }

  predicate DottedQuad(name: string) {
    |Labels(name)| == 4 && forall l :: l in Labels(name) ==> 1 <= |l| <= 3 && forall i :: 0 <= i < |l| ==> IsDigit(l[i])
  }

  /**
    The explicit test for IP literals is not repeated: an IPv4 literal is a dotted quad and an IPv6
    literal has a colon, which no label allows.
  */
  predicate IsAliasableHost(host: string) {
    var name := NormalizeHostname(host);
    && name != [] && name != "localhost" && |name| <= 253
    && !DottedQuad(name)
    && forall l :: l in Labels(name) ==> ValidLabel(l)
  }

  /** A name as it stands in an allocation. */
  predicate MappableName(name: string) {
    NormalizeHostname(name) == name && IsAliasableHost(name)
  }

  lemma LabelsSpellName(s: string)
    requires forall l :: l in Labels(s) ==> ValidLabel(l)
    ensures s != [] && s[0] != '.' && s[|s| - 1] != '.'
    ensures forall i :: 0 <= i < |s| ==> LabelChar(s[i]) || s[i] == '.'
  {
    ValidLabelsExactly(s);
  }

  lemma AliasableNames(host: string)
    requires IsAliasableHost(host)
    ensures MappableName(NormalizeHostname(host))
  {
    var name := NormalizeHostname(host);
    LabelsSpellName(name);
    assert !IsSpace(name[0]) && !IsSpace(name[|name| - 1]);
    TrimOfTight(name);
    var lowered := Lower(Trim(host));
    assert forall i :: 0 <= i < |name| ==> name[i] == lowered[i] && LowerChar(lowered[i]) == lowered[i];
    assert Lower(name) == name;
  }

  /** Mappable names have no white space and no comment sign. */
  lemma MappableChars(name: string)
    requires MappableName(name)
    ensures name != [] && forall i :: 0 <= i < |name| ==> !IsSpace(name[i]) && name[i] != '#'
  {
    LabelsSpellName(name);
  }

  // ---------- Labels, spelled out ----------

  function FirstDot(s: string): (k: nat)
    ensures k <= |s| && (k < |s| ==> s[k] == '.')
    ensures forall i :: 0 <= i < k ==> s[i] != '.'
  {
    if s == [] || s[0] == '.' then 0 else 1 + FirstDot(s[1..])
  }

  lemma {:induction false} FirstLabel(s: string)
    ensures var k := FirstDot(s);
            Labels(s) == [s[..k]] + (if k < |s| then Labels(s[k + 1..]) else [])
  {
    if s != [] && s[0] != '.' {
      FirstLabel(s[1..]);
      var k := FirstDot(s[1..]);
      assert s[..k + 1] == [s[0]] + s[1..][..k];
      if k + 1 < |s| {
        assert s[1..][k + 1..] == s[k + 2..];
      }
    }
  }

  /** Non-empty, no longer than `limit`, of the right characters, the first one in particular. */
  predicate LabelFits(l: string, first: char -> bool, rest: char -> bool, limit: nat) {
    1 <= |l| <= limit && first(l[0]) && forall i :: 0 <= i < |l| ==> rest(l[i])
  }

  /** The same of every label of `s`, without splitting it: what may follow a dot, and how far the next dot may be. */
  ghost predicate Spelled(s: string, first: char -> bool, rest: char -> bool, limit: nat) {
    && s != [] && first(s[0]) && s[|s| - 1] != '.'
    && (forall i :: 0 <= i < |s| ==> s[i] == '.' || rest(s[i]))
    && (forall i, j :: 0 <= i && i + 1 == j && j < |s| && s[i] == '.' ==> first(s[j]))
    && (forall i, j :: 0 <= i && i + limit + 1 == j && j <= |s| ==> '.' in s[i..j])
  }

  lemma SpelledWhole(s: string, first: char -> bool, rest: char -> bool, limit: nat)
    requires !first('.') && !rest('.') && forall i :: 0 <= i < |s| ==> s[i] != '.'
    ensures Spelled(s, first, rest, limit) <==> LabelFits(s, first, rest, limit)
  {
    var start := s[0..if |s| > limit then limit + 1 else |s|];
  }

  lemma SpelledSplit(s: string, k: nat, first: char -> bool, rest: char -> bool, limit: nat)
    requires !first('.') && !rest('.')
    requires k < |s| && s[k] == '.' && forall i :: 0 <= i < k ==> s[i] != '.'
    ensures Spelled(s, first, rest, limit) <==>
            LabelFits(s[..k], first, rest, limit) && Spelled(s[k + 1..], first, rest, limit)
  {
    var t := s[k + 1..];
    if Spelled(s, first, rest, limit) {
      SpelledApart(s, k, first, rest, limit);
    }
    if LabelFits(s[..k], first, rest, limit) && Spelled(t, first, rest, limit) {
      SpelledTogether(s, k, first, rest, limit);
    }
  }

  lemma SpelledApart(s: string, k: nat, first: char -> bool, rest: char -> bool, limit: nat)
    requires !first('.') && !rest('.')
    requires k < |s| && s[k] == '.' && forall i :: 0 <= i < k ==> s[i] != '.'
    requires Spelled(s, first, rest, limit)
    ensures LabelFits(s[..k], first, rest, limit) && Spelled(s[k + 1..], first, rest, limit)
  {
    var t := s[k + 1..];
    var start := s[0..if k > limit then limit + 1 else k];
    forall i, j | 0 <= i && i + limit + 1 == j && j <= |t|
      ensures '.' in t[i..j]
    {
      assert t[i..j] == s[k + 1 + i..k + 1 + j];
    }
    assert forall i :: 0 <= i < |t| ==> t[i] == s[k + 1 + i];
  }

  lemma SpelledTogether(s: string, k: nat, first: char -> bool, rest: char -> bool, limit: nat)
    requires !first('.') && !rest('.')
    requires k < |s| && s[k] == '.'
    requires LabelFits(s[..k], first, rest, limit) && Spelled(s[k + 1..], first, rest, limit)
    ensures Spelled(s, first, rest, limit)
  {
    var t := s[k + 1..];
    forall i, j | 0 <= i && i + limit + 1 == j && j <= |s|
      ensures '.' in s[i..j]
    {
      if i <= k {
        assert s[i..j][k - i] == '.';
      } else {
        assert t[i - k - 1..j - k - 1] == s[i..j];
      }
    }
    forall i | 0 <= i < |s|
      ensures s[i] == '.' || rest(s[i])
      ensures i < |s| - 1 && s[i] == '.' ==> first(s[i + 1])
    {
      if i < k {
        assert s[i] == s[..k][i];
      } else if i > k {
        assert s[i] == t[i - k - 1];
        assert i < |s| - 1 ==> s[i + 1] == t[i - k];
      } else {
        assert s[k + 1] == t[0];
      }
    }
  }

  lemma {:induction false} SpelledExactly(s: string, first: char -> bool, rest: char -> bool, limit: nat)
    requires !first('.') && !rest('.')
    ensures (forall l :: l in Labels(s) ==> LabelFits(l, first, rest, limit)) <==> Spelled(s, first, rest, limit)
    decreases |s|
  {
    var k := FirstDot(s);
    FirstLabel(s);
    if k == |s| {
      assert s[..k] == s;
      SpelledWhole(s, first, rest, limit);
    } else {
      SpelledSplit(s, k, first, rest, limit);
      SpelledExactly(s[k + 1..], first, rest, limit);
      assert forall l :: l in Labels(s) <==> l == s[..k] || l in Labels(s[k + 1..]);
    }
  }

  /** One label more than there are dots. */
  lemma {:induction false} DotsBetweenLabels(s: string)
    ensures |Labels(s)| == multiset(s)['.'] + 1
  {
    if s != [] {
      DotsBetweenLabels(s[1..]);
      assert s == [s[0]] + s[1..];
    }
  }

  predicate LabelStart(c: char) {
    IsAlphanumeric(c) || c == '_'
  }

  lemma ValidLabelsExactly(s: string)
    ensures (forall l :: l in Labels(s) ==> ValidLabel(l)) <==> Spelled(s, LabelStart, LabelChar, 63)
  {
    SpelledExactly(s, LabelStart, LabelChar, 63);
    assert forall l :: LabelFits(l, LabelStart, LabelChar, 63) <==> ValidLabel(l);
  }

  lemma DottedQuadExactly(s: string)
    ensures DottedQuad(s) <==> multiset(s)['.'] == 3 && Spelled(s, IsDigit, IsDigit, 3)
  {
    SpelledExactly(s, IsDigit, IsDigit, 3);
    DotsBetweenLabels(s);
    assert forall l :: l in Labels(s) ==>
      (LabelFits(l, IsDigit, IsDigit, 3) <==> 1 <= |l| <= 3 && forall i :: 0 <= i < |l| ==> IsDigit(l[i]));
  }

  /** Digits and dots, spelled as labels already, are spelled as digits exactly when no four stand in a row. */
  lemma DigitsSpelled(s: string)
    requires Spelled(s, LabelStart, LabelChar, 63)
    ensures Spelled(s, IsDigit, IsDigit, 3) <==>
              && (forall i :: 0 <= i < |s| ==> '0' <= s[i] <= '9' || s[i] == '.')
              && (forall i, j :: 0 <= i && i + 4 == j && j <= |s| ==> '.' in s[i..j])
  {
  }

  lemma LabelsSpelled(s: string)
    requires forall i :: 0 <= i < |s| ==> !('A' <= s[i] <= 'Z')
    ensures Spelled(s, LabelStart, LabelChar, 63) <==>
              && s != "" && s[0] != '-' && s[0] != '.' && s[|s| - 1] != '.'
              && (forall i :: 0 <= i < |s| ==>
                    'a' <= s[i] <= 'z' || '0' <= s[i] <= '9' || s[i] == '-' || s[i] == '_' || s[i] == '.')
              && (forall i, j :: 0 <= i && i + 1 == j && j < |s| && s[i] == '.' ==> s[j] != '-' && s[j] != '.')
              && (forall i, j :: 0 <= i && i + 64 == j && j <= |s| ==> '.' in s[i..j])
  {
  }

  /** A name that can be mapped, in terms of its characters. */
  ghost predicate Allowed(n: string) {
    && n != "" && n != "localhost" && |n| <= 253
    && n[0] != '-' && n[0] != '.' && n[|n| - 1] != '.'
    && (forall i :: 0 <= i < |n| ==>
          'a' <= n[i] <= 'z' || '0' <= n[i] <= '9' || n[i] == '-' || n[i] == '_' || n[i] == '.')
    && (forall i, j :: 0 <= i && i + 1 == j && j < |n| && n[i] == '.' ==> n[j] != '-' && n[j] != '.')
    && (forall i, j :: 0 <= i && i + 64 == j && j <= |n| ==> '.' in n[i..j])
    && !(&& multiset(n)['.'] == 3
         && (forall i :: 0 <= i < |n| ==> '0' <= n[i] <= '9' || n[i] == '.')
         && (forall i, j :: 0 <= i && i + 4 == j && j <= |n| ==> '.' in n[i..j]))
  }

  /** A host can be mapped exactly when its normal form is allowed. */
  lemma AliasableExactly(host: string)
    ensures IsAliasableHost(host) <==> Allowed(NormalizeHostname(host))
  {
    var n := NormalizeHostname(host);
    NormalizedChars(host);
    ValidLabelsExactly(n);
    DottedQuadExactly(n);
    LabelsSpelled(n);
    if Spelled(n, LabelStart, LabelChar, 63) {
      DigitsSpelled(n);
    }
  }

  /** Nothing in a normal form is an upper-case letter. */
  lemma NormalizedChars(host: string)
    ensures var n := NormalizeHostname(host);
            forall i :: 0 <= i < |n| ==> !('A' <= n[i] <= 'Z')
  {
    var lowered := Lower(Trim(host));
    assert forall i :: 0 <= i < |lowered| ==> lowered[i] == LowerChar(Trim(host)[i]);
  }

  lemma {:induction false} SolidIsFirst(s: string, i: nat)
    requires i <= |s|
    ensures forall k :: i <= k < SolidFrom(s, i) ==> IsSpace(s[k])
    decreases |s| - i
  {
    if i < |s| && IsSpace(s[i]) {
      SolidIsFirst(s, i + 1);
    }
  }

  lemma {:induction false} SolidIsLast(s: string, i: nat, j: nat)
    requires i <= j <= |s|
    ensures forall k :: SolidTo(s, i, j) <= k < j ==> IsSpace(s[k])
  {
    if i < j && IsSpace(s[j - 1]) {
      SolidIsLast(s, i, j - 1);
    }
  }

  /** Trimming leaves the stretch that begins and ends in no white space and has only white space around it. */
  lemma TrimExactly(s: string, i: nat, j: nat)
    requires i <= j <= |s| && (i < j ==> !IsSpace(s[i]) && !IsSpace(s[j - 1]))
    requires forall k :: 0 <= k < i || j <= k < |s| ==> IsSpace(s[k])
    ensures Trim(s) == s[i..j]
  {
    var a := SolidFrom(s, 0);
    var b := SolidTo(s, a, |s|);
    SolidIsFirst(s, 0);
    SolidIsLast(s, a, |s|);
    if i < j {
      assert a == i;
      assert b == j;
    } else {
      assert a == |s|;
    }
  }

  /** The normal form of a host: its trimmed text in lower case, without one final dot. */
  lemma NormalFormExactly(host: string)
    ensures var t, n := Trim(host), NormalizeHostname(host);
            && |n| == |t| - (if t != [] && t[|t| - 1] == '.' then 1 else 0)
            && forall k :: 0 <= k < |n| ==> n[k] == if 'A' <= t[k] <= 'Z' then (t[k] as int + 32) as char else t[k]
  {
    var t := Trim(host);
    assert t != [] ==> Lower(t)[|t| - 1] == LowerChar(t[|t| - 1]);
  }

  /** The 25 characters of the Unicode property. */
  lemma SpaceExactly(c: char)
    ensures IsSpace(c) <==>
              || c in "\t\n\U{0B}\U{0C}\r \U{85}\U{A0}\U{1680}"
              || c in "\U{2000}\U{2001}\U{2002}\U{2003}\U{2004}\U{2005}\U{2006}\U{2007}\U{2008}\U{2009}\U{200A}"
              || c in "\U{2028}\U{2029}\U{202F}\U{205F}\U{3000}"
  {
  }

  // ---------- The order of a BTreeSet of names ----------

  predicate Less(a: string, b: string) {
    b != [] && (a == [] || a[0] < b[0] || (a[0] == b[0] && Less(a[1..], b[1..])))
  }

  /** At the first place where they differ, the smaller one ends or has the smaller character. */
  lemma {:induction false} LessExactly(a: string, b: string)
    ensures Less(a, b) <==>
              exists k :: 0 <= k <= |a| && k < |b| && a[..k] == b[..k] && (k == |a| || a[k] < b[k])
  {
    if a == [] || b == [] || a[0] != b[0] {
      assert a[..0] == b[..0];
      assert forall k :: 0 < k <= |a| && k <= |b| && a[..k] == b[..k] ==> a[..k][0] == b[..k][0];
    } else {
      LessExactly(a[1..], b[1..]);
      forall k | 0 <= k < |a| && k < |b| - 1
        ensures a[1..][..k] == b[1..][..k] <==> a[..k + 1] == b[..k + 1]
      {
        assert a[..k + 1] == [a[0]] + a[1..][..k] && b[..k + 1] == [b[0]] + b[1..][..k];
      }
    }
  }

  lemma {:induction false} LessTotal(a: string, b: string)
    ensures a == b || Less(a, b) || Less(b, a)
  {
    if a != [] && b != [] && a[0] == b[0] {
      LessTotal(a[1..], b[1..]);
      assert a == [a[0]] + a[1..] && b == [b[0]] + b[1..];
    }
  }

  lemma {:induction false} LessTransitive(a: string, b: string, c: string)
    requires Less(a, b) && Less(b, c)
    ensures Less(a, c)
  {
    if a != [] && a[0] == b[0] == c[0] {
      LessTransitive(a[1..], b[1..], c[1..]);
    }
  }

  lemma {:induction false} LessIrreflexive(a: string)
    ensures !Less(a, a)
  {
    if a != [] {
      LessIrreflexive(a[1..]);
    }
  }

  predicate Sorted(names: seq<string>) {
    forall i, j :: 0 <= i < j < |names| ==> Less(names[i], names[j])
  }

  function Place(x: string, s: seq<string>): (r: seq<string>)
    requires x !in s
    ensures forall y :: y in r <==> y == x || y in s
  {
    if s == [] then [x]
    else if Less(x, s[0]) then [x] + s
    else [s[0]] + Place(x, s[1..])
  }

  lemma {:induction false} PlaceSorted(x: string, s: seq<string>)
    requires Sorted(s) && x !in s
    ensures Sorted(Place(x, s))
  {
    if s != [] {
      if Less(x, s[0]) {
        forall j | 0 <= j < |s| ensures Less(x, s[j]) {
          if j > 0 {
            LessTransitive(x, s[0], s[j]);
          }
        }
      } else {
        LessTotal(x, s[0]);
        PlaceSorted(x, s[1..]);
        var rest := Place(x, s[1..]);
        forall j | 0 <= j < |rest| ensures Less(s[0], rest[j]) {
          assert rest[j] in rest;
          if rest[j] != x {
            var k :| 0 <= k < |s[1..]| && s[1..][k] == rest[j];
            assert Less(s[0], s[k + 1]);
          }
        }
      }
    }
  }

  /** Collecting into a BTreeSet. */
  function Collect(names: seq<string>): seq<string> {
    if names == [] then []
    else
      var before := Collect(names[..|names| - 1]);
      var name := names[|names| - 1];
      if name in before then before else Place(name, before)
  }

  lemma {:induction false} CollectSorts(names: seq<string>)
    ensures Sorted(Collect(names)) && forall n :: n in Collect(names) <==> n in names
  {
    if names != [] {
      var before, name := names[..|names| - 1], names[|names| - 1];
      CollectSorts(before);
      assert names == before + [name];
      if name !in Collect(before) {
        PlaceSorted(name, Collect(before));
      }
    }
  }

  /** The name a host is mapped under, if it can be mapped. */
  function AliasOf(host: string): Option<string> {
    if IsAliasableHost(host) then Some(NormalizeHostname(host)) else None
  }

  /** The values `f` gives for the elements, in order. */
  function FilterMap(hosts: seq<string>, f: string -> Option<string>): seq<string> {
    if hosts == [] then []
    else
      var last := f(hosts[|hosts| - 1]);
      FilterMap(hosts[..|hosts| - 1], f) + (if last.Some? then [last.value] else [])
  }

  lemma {:induction false} FilterMapMembers(hosts: seq<string>, f: string -> Option<string>)
    ensures forall name :: name in FilterMap(hosts, f) <==> exists host :: host in hosts && f(host) == Some(name)
  {
    if hosts != [] {
      var before, host := hosts[..|hosts| - 1], hosts[|hosts| - 1];
      FilterMapMembers(before, f);
      assert forall h :: h in hosts <==> h in before || h == host;
    }
  }

  lemma AliasesAreNames(hosts: seq<string>)
    ensures forall name :: name in FilterMap(hosts, AliasOf) <==>
              exists host :: host in hosts && IsAliasableHost(host) && NormalizeHostname(host) == name
    ensures forall name :: name in FilterMap(hosts, AliasOf) ==> MappableName(name)
  {
    FilterMapMembers(hosts, AliasOf);
    forall name | name in FilterMap(hosts, AliasOf)
      ensures MappableName(name) && exists host :: host in hosts && IsAliasableHost(host) && NormalizeHostname(host) == name
    {
      var host :| host in hosts && AliasOf(host) == Some(name);
      AliasableNames(host);
    }
    forall host | host in hosts && IsAliasableHost(host)
      ensures NormalizeHostname(host) in FilterMap(hosts, AliasOf)
    {
      assert AliasOf(host) == Some(NormalizeHostname(host));
    }
  }

  /** The set of normalized aliasable names, in order. */
  function SortedNames(hosts: seq<string>): seq<string> {
    Collect(FilterMap(hosts, AliasOf))
  }

  lemma SortedNamesAreNames(hosts: seq<string>)
    ensures Sorted(SortedNames(hosts)) && Distinct(SortedNames(hosts))
    ensures forall name :: name in SortedNames(hosts) <==>
              exists host :: host in hosts && IsAliasableHost(host) && NormalizeHostname(host) == name
    ensures forall name :: name in SortedNames(hosts) ==> MappableName(name)
  {
    AliasesAreNames(hosts);
    CollectSorts(FilterMap(hosts, AliasOf));
    SortedIsDistinct(SortedNames(hosts));
  }

  predicate Distinct(names: seq<string>) {
    forall i, j :: 0 <= i < j < |names| ==> names[i] != names[j]
  }

  lemma SortedIsDistinct(names: seq<string>)
    requires Sorted(names)
    ensures Distinct(names)
  {
    forall i, j | 0 <= i < j < |names| ensures names[i] != names[j] {
      LessIrreflexive(names[i]);
    }
  }
}
