/** String helpers shared by the model: substring search (Rust's `str::find`
    and `str::contains`), whitespace trimming (`str::trim`) and zero-padded
    decimal formatting (`{:05}`). Strings are `seq<char>`. */
module Strings {
  import opened Wrappers

  /** `pat` occurs in `s` starting at index `i`. */
  predicate OccursAt(s: string, pat: string, i: nat) {
    i + |pat| <= |s| && s[i..i + |pat|] == pat
  }

  /** Index of the first occurrence of `pat` in `s` at or after `from`. */
  function IndexOfFrom(s: string, pat: string, from: nat): (r: Option<nat>)
    requires from <= |s|
    ensures r.Some? ==> from <= r.value && OccursAt(s, pat, r.value)
    ensures r.Some? ==> forall j :: from <= j < r.value ==> !OccursAt(s, pat, j)
    ensures r.None? ==> forall j :: from <= j ==> !OccursAt(s, pat, j)
    decreases |s| - from
  {
    if OccursAt(s, pat, from) then Some(from)
    else if from + |pat| >= |s| then None
    else IndexOfFrom(s, pat, from + 1)
  }

  /** Rust's `s.find(pat)`: index of the first occurrence of `pat`. */
  function IndexOf(s: string, pat: string): (r: Option<nat>)
    ensures r.Some? ==> OccursAt(s, pat, r.value)
    ensures r.Some? ==> forall j :: 0 <= j < r.value ==> !OccursAt(s, pat, j)
    ensures r.None? ==> forall j :: 0 <= j ==> !OccursAt(s, pat, j)
  {
    IndexOfFrom(s, pat, 0)
  }

  /** The first occurrence is at `k` when `pat` occurs there and not before. */
  lemma IndexOfIs(s: string, pat: string, k: nat)
    requires OccursAt(s, pat, k)
    requires forall j :: 0 <= j < k ==> !OccursAt(s, pat, j)
    ensures IndexOf(s, pat) == Some(k)
  {
    var r := IndexOf(s, pat);
    assert r.Some?;
    assert r.value <= k;
  }

  /** Rust's `s.contains(pat)`. */
  predicate Contains(s: string, pat: string) {
    IndexOf(s, pat).Some?
  }

  lemma ContainsAt(s: string, pat: string, i: nat)
    requires OccursAt(s, pat, i)
    ensures Contains(s, pat)
  {
  }

  /** Every character of an occurring pattern occurs too. */
  lemma ContainsCharOf(s: string, pat: string, k: nat)
    requires k < |pat|
    ensures Contains(s, pat) ==> pat[k] in s
  {
    var r := IndexOf(s, pat);
    if r.Some? {
      var v := r.value;
      assert s[v..v + |pat|][k] == s[v + k];
    }
  }

  /** A pattern with a character the text lacks does not occur in it. */
  lemma MissingCharNotContained(s: string, pat: string, k: nat)
    requires k < |pat| && pat[k] !in s
    ensures !Contains(s, pat)
  {
    ContainsCharOf(s, pat, k);
  }

  /** A one-character pattern occurs exactly where that character is. */
  lemma OccursAtSingle(s: string, c: char, j: nat)
    ensures OccursAt(s, [c], j) <==> j < |s| && s[j] == c
  {
    if j < |s| {
      assert s[j..j + 1] == [s[j]];
    }
  }

  /** An occurrence of `pat` in `s` is still one after text is appended. */
  lemma ContainsPrefix(s: string, t: string, pat: string)
    requires Contains(s, pat)
    ensures Contains(s + t, pat)
  {
    var i := IndexOf(s, pat).value;
    assert (s + t)[i..i + |pat|] == s[i..i + |pat|];
    ContainsAt(s + t, pat, i);
  }

  /** Rust's `char::is_whitespace`: the Unicode White_Space property. */
  predicate IsWhitespace(c: char) {
    || ('\U{0009}' <= c <= '\U{000D}')
    || c == '\U{0020}'
    || c == '\U{0085}'
    || c == '\U{00A0}'
    || c == '\U{1680}'
    || ('\U{2000}' <= c <= '\U{200A}')
    || c == '\U{2028}'
    || c == '\U{2029}'
    || c == '\U{202F}'
    || c == '\U{205F}'
    || c == '\U{3000}'
  }

  /** Every character of `s` is whitespace. */
  predicate IsBlank(s: string) {
    forall k :: 0 <= k < |s| ==> IsWhitespace(s[k])
  }

  /** A whitespace character in front of blank text leaves it blank. */
  lemma BlankCons(c: char, t: string)
    requires IsWhitespace(c) && IsBlank(t)
    ensures IsBlank([c] + t)
  {
    forall k | 0 <= k < |t| + 1 ensures IsWhitespace(([c] + t)[k]) {
      if k > 0 { assert ([c] + t)[k] == t[k - 1]; }
    }
  }

  /** A whitespace character after blank text leaves it blank. */
  lemma BlankSnoc(t: string, c: char)
    requires IsBlank(t) && IsWhitespace(c)
    ensures IsBlank(t + [c])
  {
    forall k | 0 <= k < |t| + 1 ensures IsWhitespace((t + [c])[k]) {
      if k < |t| { assert (t + [c])[k] == t[k]; }
    }
  }

  /** How many whitespace characters `s` starts with. */
  function LeadingBlank(s: string): (n: nat)
    ensures n <= |s|
  {
    if |s| > 0 && IsWhitespace(s[0]) then 1 + LeadingBlank(s[1..]) else 0
  }

  /** How many whitespace characters `s` ends with. */
  function TrailingBlank(s: string): (n: nat)
    ensures n <= |s|
  {
    if |s| > 0 && IsWhitespace(s[|s| - 1]) then 1 + TrailingBlank(s[..|s| - 1]) else 0
  }

  /** The leading run is all whitespace and is followed by a character that is not. */
  lemma {:induction false} LeadingBlankMeaning(s: string)
    ensures IsBlank(s[..LeadingBlank(s)])
    ensures LeadingBlank(s) < |s| ==> !IsWhitespace(s[LeadingBlank(s)])
  {
    if |s| > 0 && IsWhitespace(s[0]) {
      var n := LeadingBlank(s[1..]);
      LeadingBlankMeaning(s[1..]);
      assert s[..n + 1] == [s[0]] + s[1..][..n];
      BlankCons(s[0], s[1..][..n]);
      if n + 1 < |s| {
        assert s[n + 1] == s[1..][n];
      }
    } else {
      assert s[..0] == [];
    }
  }

  /** The trailing run is all whitespace and is preceded by a character that is not. */
  lemma {:induction false} TrailingBlankMeaning(s: string)
    ensures IsBlank(s[|s| - TrailingBlank(s)..])
    ensures TrailingBlank(s) < |s| ==> !IsWhitespace(s[|s| - TrailingBlank(s) - 1])
  {
    if |s| > 0 && IsWhitespace(s[|s| - 1]) {
      var init := s[..|s| - 1];
      var n := TrailingBlank(init);
      TrailingBlankMeaning(init);
      assert s[|s| - (n + 1)..] == init[|init| - n..] + [s[|s| - 1]];
      BlankSnoc(init[|init| - n..], s[|s| - 1]);
      if n + 1 < |s| {
        assert s[|s| - (n + 1) - 1] == init[|init| - n - 1];
      }
    } else {
      assert s[|s|..] == [];
    }
  }

  /** Rust's `str::trim_start`. */
  function TrimStart(s: string): string {
    s[LeadingBlank(s)..]
  }

  /** Rust's `str::trim_end`. */
  function TrimEnd(s: string): string {
    s[..|s| - TrailingBlank(s)]
  }

  /** Rust's `str::trim`: `s` without its leading and trailing whitespace. */
  function Trim(s: string): string {
    TrimEnd(TrimStart(s))
  }

  /** The trimmed string is a slice of the input that neither starts nor ends
      with whitespace, and everything cut away is whitespace. */
  lemma TrimSpec(s: string) returns (a: nat, b: nat)
    ensures a <= b <= |s| && Trim(s) == s[a..b]
    ensures IsBlank(s[..a]) && IsBlank(s[b..])
    ensures |Trim(s)| > 0 ==> !IsWhitespace(Trim(s)[0]) && !IsWhitespace(Trim(s)[|Trim(s)| - 1])
  {
    a := LeadingBlank(s);
    var t := s[a..];
    var m := TrailingBlank(t);
    b := |s| - m;
    LeadingBlankMeaning(s);
    TrailingBlankMeaning(t);
    assert Trim(s) == t[..|t| - m] == s[a..b];
    assert s[b..] == t[|t| - m..];
    if a < b {
      assert Trim(s)[0] == s[a];
      assert Trim(s)[|Trim(s)| - 1] == t[|t| - m - 1];
    }
  }

  /** Trimming only removes characters. */
  lemma TrimChars(s: string)
    ensures forall c :: c in Trim(s) ==> c in s
  {
    var a, b := TrimSpec(s);
    forall c | c in Trim(s) ensures c in s {
      var k :| 0 <= k < |Trim(s)| && Trim(s)[k] == c;
      assert s[a + k] == c;
    }
  }

  /** Trimming keeps every character that is not whitespace. */
  lemma TrimKeeps(s: string, i: nat)
    requires i < |s| && !IsWhitespace(s[i])
    ensures s[i] in Trim(s)
  {
    var a, b := TrimSpec(s);
    assert a <= i < b;
    assert Trim(s)[i - a] == s[i];
  }

  /** Trimming is idempotent. */
  lemma TrimIdempotent(s: string)
    ensures Trim(Trim(s)) == Trim(s)
  {
    var _, _ := TrimSpec(s);
    TrimUnpadded(Trim(s));
  }

  /** Text without whitespace at either end trims to itself. */
  lemma TrimUnpadded(s: string)
    requires |s| > 0 ==> !IsWhitespace(s[0]) && !IsWhitespace(s[|s| - 1])
    ensures Trim(s) == s
  {
  }

  /** Trailing spaces are cut. */
  lemma TrimTrailingSpace(s: string)
    requires |s| > 0 ==> !IsWhitespace(s[0]) && !IsWhitespace(s[|s| - 1])
    ensures Trim(s + " ") == s
  {
    var t := s + " ";
    if |s| > 0 {
      assert t[0] == s[0];
      assert LeadingBlank(t) == 0;
      assert t[..|t| - 1] == s;
      assert TrailingBlank(s) == 0;
      assert TrailingBlank(t) == 1;
    } else {
      assert t[1..] == [];
      assert LeadingBlank(t) == 1;
    }
  }

  /** A line trims to the empty string exactly when it is all whitespace. */
  lemma TrimEmptyIffBlank(s: string)
    ensures Trim(s) == [] <==> IsBlank(s)
  {
    var a, b := TrimSpec(s);
    if Trim(s) == [] {
      assert a == b;
      forall k | 0 <= k < |s| ensures IsWhitespace(s[k]) {
        if k < a { assert s[..a][k] == s[k]; } else { assert s[b..][k - b] == s[k]; }
      }
    } else {
      assert s[a] == Trim(s)[0];
    }
  }

  /** `c` is one of the ASCII digits '0'..'9'. */
  predicate IsDigit(c: char) {
    '0' <= c <= '9'
  }

  function DigitChar(d: nat): (c: char)
    requires d < 10
    ensures IsDigit(c) && c as int - '0' as int == d
  {
    (48 + d) as char
  }

  /** The decimal rendering of `n` with no padding (Rust's `{}` on an
      unsigned integer): the canonical form, with no leading '0' except for
      the number 0 itself, and one digit exactly for numbers below ten. */
  function Decimal(n: nat): (r: string)
    ensures |r| > 0
    ensures forall k :: 0 <= k < |r| ==> IsDigit(r[k])
    ensures r[0] == '0' <==> n == 0
    ensures |r| == 1 <==> n < 10
    ensures |r| > 1 ==> r[0] != '0'
  {
    if n < 10 then [DigitChar(n)] else Decimal(n / 10) + [DigitChar(n % 10)]
  }

  function Zeros(k: nat): (r: string)
    ensures |r| == k && forall i :: 0 <= i < k ==> r[i] == '0'
  {
    if k == 0 then [] else ['0'] + Zeros(k - 1)
  }

  /** Rust's `{:05}` on an unsigned integer: the decimal rendering, left-padded
      with zeros to at least five characters (never truncated). */
  function Pad5(n: nat): (r: string)
    ensures |r| >= 5
    ensures forall k :: 0 <= k < |r| ==> IsDigit(r[k])
    ensures |r| == (if |Decimal(n)| < 5 then 5 else |Decimal(n)|)
    ensures r[|r| - |Decimal(n)|..] == Decimal(n)
    ensures forall k :: 0 <= k < |r| - |Decimal(n)| ==> r[k] == '0'
  {
    var d := Decimal(n);
    if |d| < 5 then Zeros(5 - |d|) + d else d
  }

  /** The value of a string of decimal digits. */
  function ParseDecimal(s: string): nat
    requires forall k :: 0 <= k < |s| ==> IsDigit(s[k])
  {
    if |s| == 0 then 0
    else
      var last := s[|s| - 1];
      assert IsDigit(last);
      ParseDecimal(s[..|s| - 1]) * 10 + (last as int - '0' as int)
  }

  lemma {:induction false} ParseDecimalRoundTrip(n: nat)
    ensures ParseDecimal(Decimal(n)) == n
  {
    if n >= 10 {
      var d := Decimal(n);
      assert d[..|d| - 1] == Decimal(n / 10);
      ParseDecimalRoundTrip(n / 10);
    }
  }

  lemma {:induction false} ParseDecimalLeadingZeros(k: nat, s: string)
    requires forall i :: 0 <= i < |s| ==> IsDigit(s[i])
    ensures ParseDecimal(Zeros(k) + s) == ParseDecimal(s)
    decreases |s|
  {
    if |s| == 0 {
      ParseZeros(k);
      assert Zeros(k) + s == Zeros(k);
    } else {
      var t := Zeros(k) + s;
      assert t[..|t| - 1] == Zeros(k) + s[..|s| - 1];
      ParseDecimalLeadingZeros(k, s[..|s| - 1]);
    }
  }

  lemma {:induction false} ParseZeros(k: nat)
    ensures ParseDecimal(Zeros(k)) == 0
  {
    if k > 0 {
      var z := Zeros(k);
      assert z[..k - 1] == Zeros(k - 1);
      ParseZeros(k - 1);
    }
  }

  /** Distinct numbers have distinct decimal renderings. */
  lemma DecimalInjective(m: nat, n: nat)
    requires Decimal(m) == Decimal(n)
    ensures m == n
  {
    ParseDecimalRoundTrip(m);
    ParseDecimalRoundTrip(n);
  }

  /** Text framed by the same prefix and suffix can be read back. */
  lemma SameFrameSameMiddle(p: string, a: string, b: string, t: string)
    requires p + a + t == p + b + t
    ensures a == b
  {
    assert |a| == |b|;
    assert a == (p + a + t)[|p|..|p| + |a|];
    assert b == (p + b + t)[|p|..|p| + |b|];
  }

  /** Reading a padded number back yields the number: `{:05}` loses nothing. */
  lemma Pad5RoundTrip(n: nat)
    ensures ParseDecimal(Pad5(n)) == n
  {
    var d := Decimal(n);
    ParseDecimalRoundTrip(n);
    if |d| < 5 {
      ParseDecimalLeadingZeros(5 - |d|, d);
      assert Pad5(n) == Zeros(5 - |d|) + d;
    } else {
      assert Pad5(n) == d;
    }
  }

  /** Distinct numbers have distinct padded renderings. */
  lemma Pad5Injective(m: nat, n: nat)
    requires Pad5(m) == Pad5(n)
    ensures m == n
  {
    Pad5RoundTrip(m);
    Pad5RoundTrip(n);
  }

  /** A one-digit number is padded with four zeros. */
  lemma Pad5Digit(n: nat)
    requires n < 10
    ensures Pad5(n) == "0000" + [DigitChar(n)]
  {
    assert Decimal(n) == [DigitChar(n)];
    assert Zeros(4) == "0000";
  }
}
