/** Python's `str(i)` and `int(s)` on non-negative decimal numerals. */
module Numerals {

  predicate IsDigit(c: char)
  {
    '0' <= c <= '9'
  }

  function DigitChar(d: nat): (c: char)
    requires d < 10
    ensures IsDigit(c)
  {
    ('0' as int + d) as char
  }

  function DigitValue(c: char): (d: nat)
    requires IsDigit(c)
    ensures d < 10 && DigitChar(d) == c
  {
    c as int - '0' as int
  }

  /** `str(n)`: the shortest decimal numeral of `n`. */
  function NatToString(n: nat): (s: string)
    ensures |s| >= 1
    ensures forall i :: 0 <= i < |s| ==> IsDigit(s[i])
    ensures s[0] == '0' ==> n == 0 && s == "0"
  {
    if n < 10 then [DigitChar(n)] else NatToString(n / 10) + [DigitChar(n % 10)]
  }

  /**
   * `int(s)` on a string of decimal digits.  A numeral without a leading
   * zero is the one `str` prints for its value, so it is read back exactly.
   */
  function ParseDecimal(s: string): (n: nat)
    requires forall i :: 0 <= i < |s| ==> IsDigit(s[i])
    ensures |s| > 0 && s[0] != '0' ==> NatToString(n) == s
  {
    if s == [] then 0
    else 10 * ParseDecimal(s[..|s| - 1]) + DigitValue(s[|s| - 1])
  }

  /** `int(str(n)) == n`. */
  lemma {:induction false} ParseNatToString(n: nat)
    ensures ParseDecimal(NatToString(n)) == n
  {
    var s := NatToString(n);
    if n >= 10 {
      assert s[..|s| - 1] == NatToString(n / 10);
      ParseNatToString(n / 10);
    } else {
      assert s[..0] == [];
    }
  }

  /** Distinct numbers have distinct numerals. */
  lemma NatToStringInjective(a: nat, b: nat)
    requires NatToString(a) == NatToString(b)
    ensures a == b
  {
    ParseNatToString(a);
    ParseNatToString(b);
  }

  /** `[str(i+1) for i in range(n)]` */
  function OptionNumerals(n: nat): (r: seq<string>)
    ensures |r| == n
  {
    seq(n, i requires 0 <= i < n => NatToString(i + 1))
  }

  /**
   * A string is in `[str(i+1) for i in range(n)]` exactly when it is the
   * numeral of some position 1..n, and then `int(...)` recovers that position.
   */
  lemma {:induction false} OptionNumeralsMember(s: string, n: nat)
    ensures s in OptionNumerals(n) <==> exists k :: 1 <= k <= n && s == NatToString(k)
    ensures forall k :: 1 <= k <= n && s == NatToString(k) ==> ParseDecimal(s) == k
  {
    var r := OptionNumerals(n);
    if s in r {
      var i :| 0 <= i < n && r[i] == s;
      assert s == NatToString(i + 1);
    }
    forall k | 1 <= k <= n && s == NatToString(k)
      ensures s in r && ParseDecimal(s) == k
    {
      assert r[k - 1] == s;
      ParseNatToString(k);
    }
  }
}
