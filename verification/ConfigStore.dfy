/** Immutable revision texts, stored under one path per workspace, profile and number. */
module ConfigStore {
  import opened Util
  import opened Store

  /** At least six digits, padded with zeros. */
  function Padded(n: nat): string {
    Zeros(if |Decimal(n)| < 6 then 6 - |Decimal(n)| else 0) + Decimal(n)
  }

  function Zeros(k: nat): (z: string)
    ensures |z| == k && forall i :: 0 <= i < k ==> z[i] == '0'
  {
    seq(k, _ => '0')
  }

  predicate ValidPart(part: string) {
    0 < |part| <= 128
    && forall i :: 0 <= i < |part| ==>
         'a' <= part[i] <= 'z' || 'A' <= part[i] <= 'Z' || '0' <= part[i] <= '9' || part[i] == '-' || part[i] == '_'
  }

  function RevisionPath(workspace: string, profile: string, revision: nat): string {
    "profiles/" + workspace + "/" + profile + "/" + Padded(revision) + ".yaml"
  }

  /** `revision_path`: the path of a revision given as text, if all three parts are well formed. */
  function PathOf(workspace: string, profile: string, revision: string): Option<string> {
    if !ValidPart(workspace) || !ValidPart(profile) || ParseU64(revision).None? then None
    else Some(RevisionPath(workspace, profile, ParseU64(revision).value))
  }

  lemma {:induction false} LeadingZeros(z: string, d: string)
    requires forall i :: 0 <= i < |z| ==> z[i] == '0'
    ensures Numeral(z + d) == Numeral(d)
    decreases |z| + |d|
  {
    if d != [] {
      assert (z + d)[..|z + d| - 1] == z + d[..|d| - 1];
      LeadingZeros(z, d[..|d| - 1]);
    } else if z != [] {
      assert (z + d)[..|z + d| - 1] == z[..|z| - 1] + [];
      LeadingZeros(z[..|z| - 1], []);
    }
  }

  lemma {:induction false} DecimalHasNoLeadingZero(n: nat)
    ensures |Decimal(n)| > 1 ==> Decimal(n)[0] != '0'
  {
    if n >= 10 {
      DecimalHasNoLeadingZero(n / 10);
    }
  }

  /** `{:06}`: at least six digits that denote the number, without a zero in front when there are more. */
  lemma PaddedExactly(n: nat)
    ensures var p := Padded(n);
            |p| >= 6 && AllDigits(p) && Numeral(p) == n && (|p| > 6 ==> p[0] != '0')
  {
    NumeralOfDecimal(n);
    DecimalHasNoLeadingZero(n);
    LeadingZeros(Zeros(if |Decimal(n)| < 6 then 6 - |Decimal(n)| else 0), Decimal(n));
  }

  lemma PaddedInjective(m: nat, n: nat)
    requires Padded(m) == Padded(n)
    ensures m == n
  {
    NumeralOfDecimal(m);
    NumeralOfDecimal(n);
    LeadingZeros(Zeros(if |Decimal(m)| < 6 then 6 - |Decimal(m)| else 0), Decimal(m));
    LeadingZeros(Zeros(if |Decimal(n)| < 6 then 6 - |Decimal(n)| else 0), Decimal(n));
  }

  /** Different revisions never share a path, so a table keyed by the triple loses nothing. */
  lemma RevisionPathInjective(w1: string, p1: string, n1: nat, w2: string, p2: string, n2: nat)
    requires ValidPart(w1) && ValidPart(p1) && ValidPart(w2) && ValidPart(p2)
    requires RevisionPath(w1, p1, n1) == RevisionPath(w2, p2, n2)
    ensures w1 == w2 && p1 == p2 && n1 == n2
  {
    var f1, f2 := Padded(n1) + ".yaml", Padded(n2) + ".yaml";
    AfterPrefix(w1, p1, n1);
    AfterPrefix(w2, p2, n2);
    SeparatorSplits(w1, p1 + "/" + f1, w2, p2 + "/" + f2, '/');
    SeparatorSplits(p1, f1, p2, f2, '/');
    assert Padded(n1) == f1[..|f1| - 5] && Padded(n2) == f2[..|f2| - 5];
    PaddedInjective(n1, n2);
  }

  /**
    Two texts share a path exactly when they name the same workspace and profile and the same number,
    however the number is written; the broker's own spelling of a number always has a path.
  */
  lemma PathIsNumber(w1: string, p1: string, r1: string, w2: string, p2: string, r2: string)
    requires PathOf(w1, p1, r1).Some? && PathOf(w2, p2, r2).Some?
    ensures PathOf(w1, p1, r1) == PathOf(w2, p2, r2) <==> w1 == w2 && p1 == p2 && ParseU64(r1) == ParseU64(r2)
    ensures forall n: nat :: n <= MAX_U64 ==> PathOf(w1, p1, Decimal(n)) == Some(RevisionPath(w1, p1, n))
  {
    if PathOf(w1, p1, r1) == PathOf(w2, p2, r2) {
      RevisionPathInjective(w1, p1, ParseU64(r1).value, w2, p2, ParseU64(r2).value);
    }
    forall n: nat | n <= MAX_U64 ensures PathOf(w1, p1, Decimal(n)) == Some(RevisionPath(w1, p1, n)) {
      ParsesBack(n);
    }
  }

  lemma AfterPrefix(w: string, p: string, n: nat)
    ensures RevisionPath(w, p, n)[|"profiles/"|..] == w + "/" + (p + "/" + (Padded(n) + ".yaml"))
  {
    var rest := w + "/" + p + "/" + Padded(n) + ".yaml";
    assert RevisionPath(w, p, n) == "profiles/" + rest;
    assert rest == w + "/" + (p + "/" + (Padded(n) + ".yaml"));
  }

  class InMemoryConfigStore {
    var revisions: map<string, string>

    constructor ()
      ensures revisions == map[]
    {
      revisions := map[];
    }

    /** Create-only: what is stored under any path stays as it is. */
    method PutRevision(workspace: string, profile: string, revision: string, yaml: string) returns (r: Outcome<()>)
      modifies this
      ensures old(revisions).Keys <= revisions.Keys && forall path :: path in old(revisions) ==> revisions[path] == old(revisions)[path]
      ensures PathOf(workspace, profile, revision).None? ==> r == Err(BadRequest) && revisions == old(revisions)
      ensures PathOf(workspace, profile, revision).Some? ==>
                var path := PathOf(workspace, profile, revision).value;
                if path in old(revisions) then r == Err(Conflict) && revisions == old(revisions)
                else r == Ok(()) && revisions == old(revisions)[path := yaml]
      ensures r != Err(BadRequest) <==>
                var digits := if revision != "" && revision[0] == '+' then revision[1..] else revision;
                && (forall part :: part == workspace || part == profile ==>
                      && 0 < |part| <= 128
                      && forall i :: 0 <= i < |part| ==>
                           var c := part[i];
                           'a' <= c <= 'z' || 'A' <= c <= 'Z' || '0' <= c <= '9' || c == '-' || c == '_')
                && digits != "" && (forall i :: 0 <= i < |digits| ==> '0' <= digits[i] <= '9')
                && Numeral(digits) <= 0xFFFF_FFFF_FFFF_FFFF
      ensures r.Ok? ==>
                var digits := if revision != "" && revision[0] == '+' then revision[1..] else revision;
                var path := "profiles/" + workspace + "/" + profile + "/" + Padded(Numeral(digits)) + ".yaml";
                path !in old(revisions) && revisions == old(revisions)[path := yaml]
    {
      if !ValidPart(workspace) || !ValidPart(profile) {
        return Err(BadRequest);
      }
      var number := ParseU64(revision);
      if number.None? {
        return Err(BadRequest);
      }
      var path := RevisionPath(workspace, profile, number.value);
      if path in revisions {
        return Err(Conflict);
      }
      revisions := revisions[path := yaml];
      return Ok(());
    }
  }
}
