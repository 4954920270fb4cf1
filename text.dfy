/**
 * The few java.lang.String and java.lang.Long operations the gateway relies on, written out
 * over `seq<char>`: `trim()`, the first field of `split(",")` and `Long.toString`.
 */
module Text {
  import opened Wrappers

  /** `trim()` removes every leading and trailing character whose code is at most U+0020. */
  predicate IsTrimmable(c: char) {
    c <= ' '
  }

  /** How many characters at the start of `s` are trimmable. */
  function LeadingTrimmable(s: string): (k: nat)
    ensures k <= |s|
    ensures forall i :: 0 <= i < k ==> IsTrimmable(s[i])
    ensures k == |s| || !IsTrimmable(s[k])
  {
    if s != [] && IsTrimmable(s[0]) then
      var k := 1 + LeadingTrimmable(s[1..]);
      assert forall i :: 1 <= i < k ==> s[i] == s[1..][i - 1];
      k
    else 0
  }

  /**
   * Where the trailing run of trimmable characters starts, scanning back from `hi` but not past
   * `lo`; everything from `hi` on is already known to be trimmable.
   */
  function TrailingStart(s: string, lo: nat, hi: nat): (e: nat)
    requires lo <= hi <= |s|
    requires forall i :: hi <= i < |s| ==> IsTrimmable(s[i])
    ensures lo <= e <= hi
    ensures forall i :: e <= i < |s| ==> IsTrimmable(s[i])
    ensures e == lo || !IsTrimmable(s[e - 1])
    decreases hi
  {
    if hi > lo && IsTrimmable(s[hi - 1]) then TrailingStart(s, lo, hi - 1) else hi
  }

  /** `s` with only trimmable characters before position `lo` and from `lo + |r|` on, and `r` between. */
  ghost predicate StripsTo(s: string, lo: int, r: string) {
    0 <= lo && lo + |r| <= |s| && s[lo..lo + |r|] == r
    && (forall i :: 0 <= i < lo ==> IsTrimmable(s[i]))
    && (forall i :: lo + |r| <= i < |s| ==> IsTrimmable(s[i]))
  }

  /**
   * Java's `String.trim()`: the infix left after removing every trimmable character at both ends;
   * it neither starts nor ends with a trimmable character.
   */
  function Trim(s: string): (r: string)
    ensures StripsTo(s, LeadingTrimmable(s), r)
    ensures r == [] || (!IsTrimmable(r[0]) && !IsTrimmable(r[|r| - 1]))
  {
    var lo := LeadingTrimmable(s);
    s[lo..TrailingStart(s, lo, |s|)]
  }

  /** Trimming twice trims nothing more. */
  lemma TrimIdempotent(s: string)
    ensures Trim(Trim(s)) == Trim(s)
  {
    var r := Trim(s);
    if r != [] {
      assert LeadingTrimmable(r) == 0;
      assert TrailingStart(r, 0, |r|) == |r|;
      assert r[0..|r|] == r;
    }
  }

  /** A text that neither starts nor ends with a trimmable character is its own trim. */
  lemma TrimKeepsBoundedText(s: string)
    requires s != [] && !IsTrimmable(s[0]) && !IsTrimmable(s[|s| - 1])
    ensures Trim(s) == s
  {
    assert LeadingTrimmable(s) == 0;
    assert TrailingStart(s, 0, |s|) == |s|;
    assert s[0..|s|] == s;
  }

  /** The characters of `s` before the first `c` (all of `s` when there is none). */
  function UpTo(s: string, c: char): (r: string)
    ensures r <= s && c !in r
    ensures |r| < |s| ==> s[|r|] == c
  {
    if s == [] || s[0] == c then [] else [s[0]] + UpTo(s[1..], c)
  }

  /**
   * Java's `s.split(String.valueOf(sep))[0]` for a separator that is not a regular-expression
   * metacharacter, such as `,`: the text before the first separator. Java drops trailing
   * empty fields, so when `s` is non-empty and made only of separators the array is empty and
   * indexing it throws; that case is `None`.
   */
  function FirstSplitField(s: string, sep: char): (r: Option<string>)
    ensures r.None? <==> |s| > 0 && forall i :: 0 <= i < |s| ==> s[i] == sep
    ensures r.Some? ==> r.value <= s && sep !in r.value && (|r.value| < |s| ==> s[|r.value|] == sep)
  {
    if |s| > 0 && forall i :: 0 <= i < |s| ==> s[i] == sep then None else Some(UpTo(s, sep))
  }

  predicate IsDigit(c: char) {
    '0' <= c <= '9'
  }

  function DigitChar(d: nat): (c: char)
    requires d < 10
    ensures IsDigit(c) && c as int - '0' as int == d
  {
    ('0' as int + d) as char
  }

  /** The decimal digits of `n`, most significant first, without leading zeros. */
  function Digits(n: nat): (r: string)
    ensures |r| >= 1 && forall i :: 0 <= i < |r| ==> IsDigit(r[i])
    ensures |r| > 1 ==> r[0] != '0'
  {
    if n < 10 then [DigitChar(n)] else Digits(n / 10) + [DigitChar(n % 10)]
  }

  /** The number a string of decimal digits denotes. */
  function DigitsValue(ds: string): nat
    requires forall i :: 0 <= i < |ds| ==> IsDigit(ds[i])
  {
    if ds == [] then 0
    else
      assert IsDigit(ds[|ds| - 1]);
      DigitsValue(ds[..|ds| - 1]) * 10 + (ds[|ds| - 1] as int - '0' as int)
  }

  /** `Long.toString(n)` (and what SLF4J prints for a `long` argument). */
  function LongText(n: int): string {
    if n < 0 then "-" + Digits(-n) else Digits(n)
  }

  /** Reads back the text `LongText` writes: an optional minus sign followed by decimal digits. */
  function ParseLong(s: string): Option<int> {
    if |s| > 1 && s[0] == '-' && forall i :: 1 <= i < |s| ==> IsDigit(s[i]) then Some(-(DigitsValue(s[1..]) as int))
    else if |s| > 0 && forall i :: 0 <= i < |s| ==> IsDigit(s[i]) then Some(DigitsValue(s))
    else None
  }

  lemma {:induction false} DigitsValueOfDigits(n: nat)
    ensures DigitsValue(Digits(n)) == n
  {
    if n >= 10 {
      DigitsValueOfDigits(n / 10);
      var ds := Digits(n);
      assert ds[..|ds| - 1] == Digits(n / 10);
    }
  }

  /** Rendering a long and reading it back gives the same number. */
  lemma LongTextRoundTrip(n: int)
    ensures ParseLong(LongText(n)) == Some(n)
  {
    var s := LongText(n);
    if n < 0 {
      var ds := Digits(-n);
      DigitsValueOfDigits(-n);
      assert s == "-" + ds && s[1..] == ds;
      assert forall i :: 1 <= i < |s| ==> s[i] == ds[i - 1];
    } else {
      DigitsValueOfDigits(n);
      assert IsDigit(s[0]) && s[0] != '-';
    }
  }
}
