/** The two pieces of Python string formatting that the coverage sentences
    use: `str(n)` of a natural number and `sep.join(items)`. */
module Text {

  predicate IsDigit(c: char) {
    '0' <= c <= '9'
  }

  predicate AllDigits(s: string) {
    forall i :: 0 <= i < |s| ==> IsDigit(s[i])
  }

  function DigitChar(d: nat): (c: char)
    requires d < 10
    ensures IsDigit(c) && (c - '0') as nat == d
  {
    "0123456789"[d]
  }

  /** Value of a string of decimal digits. */
  function DecimalValue(s: string): nat
    requires AllDigits(s)
  {
    if s == [] then 0
    else DecimalValue(s[..|s| - 1]) * 10 + (s[|s| - 1] - '0') as nat
  }

  /** `str(n)` for a natural number: decimal digits, no leading zero. */
  function NatToString(n: nat): (s: string)
    ensures |s| > 0 && AllDigits(s)
    ensures s[0] == '0' ==> n == 0 && |s| == 1
  {
    if n < 10 then [DigitChar(n)]
    else NatToString(n / 10) + [DigitChar(n % 10)]
  }

  /** Reading the digits of `str(n)` back gives `n`. */
  lemma {:induction false} NatToStringRoundTrip(n: nat)
    ensures DecimalValue(NatToString(n)) == n
  {
    var s := NatToString(n);
    if n >= 10 {
      NatToStringRoundTrip(n / 10);
      assert s[..|s| - 1] == NatToString(n / 10);
    }
  }

  /** Distinct numbers print differently. */
  lemma NatToStringInjective(m: nat, n: nat)
    requires NatToString(m) == NatToString(n)
    ensures m == n
  {
    NatToStringRoundTrip(m);
    NatToStringRoundTrip(n);
  }

  /** A run of digits followed by a non-digit is determined by the string it
      starts: the digits end where the first non-digit stands. */
  lemma DigitsThenNonDigit(d: string, r: string, d': string, r': string)
    requires AllDigits(d) && AllDigits(d')
    requires |r| > 0 && !IsDigit(r[0]) && |r'| > 0 && !IsDigit(r'[0])
    requires d + r == d' + r'
    ensures d == d' && r == r'
  {
    var s := d + r;
    assert d == s[..|d|] && d' == s[..|d'|];
    assert r == s[|d|..] && r' == s[|d'|..];
  }

  /** `sep.join(items)`: the items with `sep` between neighbours. */
  function Join(items: seq<string>, sep: string): string {
    if |items| == 0 then ""
    else if |items| == 1 then items[0]
    else Join(items[..|items| - 1], sep) + sep + items[|items| - 1]
  }
}
