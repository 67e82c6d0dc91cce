/** Decimal numbers as text: `%d`, `%010d`, and reading them back. */
module Decimals {
  predicate IsDigit(c: char) {
    '0' <= c <= '9'
  }

  predicate AllDigits(s: string) {
    forall i :: 0 <= i < |s| ==> IsDigit(s[i])
  }

  function Numeral(d: nat): (c: char)
    requires d < 10
    ensures IsDigit(c) && c as int - '0' as int == d
  {
    ('0' as int + d) as char
  }

  function ParseTo(s: string, n: nat): int
    requires n <= |s|
  {
    if n == 0 then 0 else ParseTo(s, n - 1) * 10 + (s[n - 1] as int - '0' as int)
  }

  function Parse(s: string): int {
    ParseTo(s, |s|)
  }

  function Dec(n: nat): (s: string)
    ensures |s| >= 1
  {
    if n < 10 then [Numeral(n)] else Dec(n / 10) + [Numeral(n % 10)]
  }

  function Zeros(k: nat): string {
    seq(k, _ => '0')
  }

  /** `%010d`: never cut, only filled up. */
  function Padded(n: nat): string {
    if |Dec(n)| >= 10 then Dec(n) else Zeros(10 - |Dec(n)|) + Dec(n)
  }

  function Power(k: nat): nat {
    if k == 0 then 1 else 10 * Power(k - 1)
  }

  lemma {:induction false} ParseFront(a: string, b: string, n: nat)
    requires n <= |a|
    ensures ParseTo(a + b, n) == ParseTo(a, n)
  {
    if n > 0 { ParseFront(a, b, n - 1); }
  }

  lemma {:induction false} ParseDec(n: nat)
    ensures AllDigits(Dec(n)) && Parse(Dec(n)) == n
  {
    if n >= 10 {
      ParseDec(n / 10);
      ParseFront(Dec(n / 10), [Numeral(n % 10)], |Dec(n / 10)|);
    } else {
      assert ParseTo(Dec(n), 1) == ParseTo(Dec(n), 0) * 10 + n;
    }
  }

  lemma {:induction false} ParseZeros(k: nat, s: string, n: nat)
    requires n <= |s|
    ensures ParseTo(Zeros(k) + s, k + n) == ParseTo(s, n)
    decreases n, k
  {
    if n > 0 {
      ParseZeros(k, s, n - 1);
      assert (Zeros(k) + s)[k + n - 1] == s[n - 1];
    } else if k > 0 {
      ParseZeros(k - 1, s, 0);
      assert (Zeros(k) + s)[k - 1] == '0';
      SamePrefix(Zeros(k) + s, Zeros(k - 1) + s, k - 1);
    }
  }

  lemma {:induction false} SamePrefix(a: string, b: string, n: nat)
    requires n <= |a| && n <= |b| && forall i :: 0 <= i < n ==> a[i] == b[i]
    ensures ParseTo(a, n) == ParseTo(b, n)
  {
    if n > 0 { SamePrefix(a, b, n - 1); }
  }

  lemma ParsePadded(n: nat)
    ensures AllDigits(Padded(n)) && Parse(Padded(n)) == n
  {
    ParseDec(n);
    if |Dec(n)| < 10 { ParseZeros(10 - |Dec(n)|, Dec(n), |Dec(n)|); }
  }

  lemma {:induction false} DecLength(n: nat, k: nat)
    requires k >= 1
    ensures |Dec(n)| <= k <==> n < Power(k)
  {
    if k == 1 {
      assert Power(1) == 10 * Power(0);
    } else if n >= 10 {
      DecLength(n / 10, k - 1);
    } else {
      PowerGrows(k);
    }
  }

  lemma {:induction false} PowerGrows(k: nat)
    requires k >= 1
    ensures Power(k) >= 10
  {
    if k > 1 { PowerGrows(k - 1); }
  }

  /** Ten digits are what a padded number takes exactly while it is below ten to the tenth. */
  lemma PaddedWidth(n: nat)
    ensures |Padded(n)| == 10 <==> n < 10000000000
    ensures |Padded(n)| >= 10
  {
    DecLength(n, 10);
    assert Power(10) == 10000000000 by {
      assert Power(2) == 100 && Power(4) == 100 * Power(2) && Power(6) == 100 * Power(4) && Power(8) == 100 * Power(6);
    }
  }
}
