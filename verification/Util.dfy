/** Small vocabulary shared by every component. */
module Util {

  datatype Option<+T> = None | Some(value: T)

  /** The largest value of the `u64` counters, times and intervals of the broker. */
  const MAX_U64: nat := 0xFFFF_FFFF_FFFF_FFFF

  /** `u64::saturating_add`, applied to an exact sum. */
  function Sat(n: nat): (r: nat)
    ensures r <= 0xFFFF_FFFF_FFFF_FFFF && r <= n && (r == n || r == 0xFFFF_FFFF_FFFF_FFFF)
  {
    if n > MAX_U64 then MAX_U64 else n
  }

  function LowerChar(c: char): char {
    if 'A' <= c <= 'Z' then (c as int + 32) as char else c
  }

  /** `str::to_ascii_lowercase`; two names are `eq_ignore_ascii_case` exactly when their images agree. */
  function Lower(s: string): (r: string)
    ensures |r| == |s|
    ensures forall i :: 0 <= i < |s| ==> r[i] == LowerChar(s[i])
  {
    seq(|s|, i requires 0 <= i < |s| => LowerChar(s[i]))
  }

  // ---------- Decimal numerals ----------

  function Digit(n: nat): char
    requires n < 10
  {
    (n + '0' as int) as char
  }

  /** `format!("{n}")`. */
  function Decimal(n: nat): (r: string)
    ensures if n < 10 then |r| == 1 else |r| >= 2
    ensures forall i :: 0 <= i < |r| ==> '0' <= r[i] <= '9'
  {
    if n < 10 then [Digit(n)] else Decimal(n / 10) + [Digit(n % 10)]
  }

  lemma {:induction false} DecimalInjective(m: nat, n: nat)
    requires Decimal(m) == Decimal(n)
    ensures m == n
  {
    assert Decimal(m)[|Decimal(m)| - 1] == Digit(m % 10);
    assert Decimal(n)[|Decimal(n)| - 1] == Digit(n % 10);
    if m >= 10 {
      assert Decimal(m)[..|Decimal(m)| - 1] == Decimal(m / 10);
      assert Decimal(n)[..|Decimal(n)| - 1] == Decimal(n / 10);
      DecimalInjective(m / 10, n / 10);
    }
  }

  /** Texts that agree and are split at their first `sep` agree on both sides of it. */
  lemma SeparatorSplits(a: string, x: string, b: string, y: string, sep: char)
    requires a + [sep] + x == b + [sep] + y
    requires sep !in a && sep !in b
    ensures a == b && x == y
  {
    assert forall i :: 0 <= i < |a| ==> (a + [sep] + x)[i] == a[i] != sep;
    assert forall i :: 0 <= i < |b| ==> (b + [sep] + y)[i] == b[i] != sep;
    assert (a + [sep] + x)[|a|] == sep && (b + [sep] + y)[|b|] == sep;
    assert a == (a + [sep] + x)[..|a|] && b == (b + [sep] + y)[..|b|];
    assert x == (a + [sep] + x)[|a| + 1..] && y == (b + [sep] + y)[|b| + 1..];
  }

  // ---------- Sets ----------

  lemma {:induction false} SubsetCount<T>(a: set<T>, b: set<T>)
    requires a <= b
    ensures |a| <= |b|
  {
    if a != {} {
      var x :| x in a;
      SubsetCount(a - {x}, b - {x});
    }
  }

  // ---------- Bytes ----------

  /** How many bytes the UTF-8 encoding of a character takes. */
  function ByteWidth(c: char): nat {
    if c <= '\U{7F}' then 1 else if c <= '\U{7FF}' then 2 else if c <= '\U{FFFF}' then 3 else 4
  }

  /** `str::len`: the length in bytes. */
  function ByteLength(s: string): (n: nat)
    ensures |s| <= n <= 4 * |s|
  {
    if s == [] then 0 else ByteWidth(s[0]) + ByteLength(s[1..])
  }

  // ---------- Parsing ----------

  /** The number a string of digits denotes. */
  function Numeral(s: string): nat {
    if s == [] then 0
    else 10 * Numeral(s[..|s| - 1]) + (if '0' <= s[|s| - 1] <= '9' then s[|s| - 1] as int - '0' as int else 0)
  }

  predicate AllDigits(s: string) {
    forall i :: 0 <= i < |s| ==> '0' <= s[i] <= '9'
  }

  /** `str::parse::<u64>`: an optional plus sign, then digits, within range. */
  function ParseU64(s: string): Option<nat> {
    var digits := if s != [] && s[0] == '+' then s[1..] else s;
    if digits == [] || !AllDigits(digits) || Numeral(digits) > MAX_U64 then None else Some(Numeral(digits))
  }

  lemma {:induction false} NumeralOfDecimal(n: nat)
    ensures Numeral(Decimal(n)) == n
  {
    if n >= 10 {
      NumeralOfDecimal(n / 10);
      assert Decimal(n)[..|Decimal(n)| - 1] == Decimal(n / 10);
    } else {
      assert Decimal(n)[..0] == [];
    }
  }

  /** A number in range is read back from its numeral. */
  lemma ParsesBack(n: nat)
    requires n <= MAX_U64
    ensures ParseU64(Decimal(n)) == Some(n)
  {
    NumeralOfDecimal(n);
    assert '0' <= Decimal(n)[0];
  }
}
