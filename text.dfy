/**
  Decimal rendering of non-negative integers, as a template literal `${n}`
  does it, and the quoting of titles in log descriptions.
 */
module Text {

  predicate IsDigit(c: char) { '0' <= c <= '9' }

  function DigitChar(d: nat): (c: char)
    requires d < 10
    ensures IsDigit(c) && (c as int) - ('0' as int) == d
  {
    ((('0' as int) + d) as char)
  }

  /** The shortest decimal numeral of `n`: digits only, no leading zero. */
  function NatToString(n: nat): (r: string)
    ensures |r| >= 1
    ensures forall i :: 0 <= i < |r| ==> IsDigit(r[i])
    ensures r[0] == '0' ==> n == 0
  {
    if n < 10 then [DigitChar(n)] else NatToString(n / 10) + [DigitChar(n % 10)]
  }

  /** The value of a string of decimal digits. */
  function ParseDigits(s: string): nat
    requires forall i :: 0 <= i < |s| ==> IsDigit(s[i])
  {
    if s == [] then 0
    else
      assert IsDigit(s[|s| - 1]);
      ParseDigits(s[..|s| - 1]) * 10 + ((s[|s| - 1] as int) - ('0' as int)) as nat
  }

  /** Reading back a rendered numeral gives the number. */
  lemma {:induction false} ParseNatToString(n: nat)
    ensures ParseDigits(NatToString(n)) == n
  {
    var r := NatToString(n);
    if n >= 10 {
      ParseNatToString(n / 10);
      assert r[..|r| - 1] == NatToString(n / 10);
    }
  }

  /** Distinct numbers render distinctly. */
  lemma NatToStringInjective(m: nat, n: nat)
    requires NatToString(m) == NatToString(n)
    ensures m == n
  {
    ParseNatToString(m);
    ParseNatToString(n);
  }

  /** A title between double quotes, as the log descriptions show it. */
  function Quote(title: string): string { "\"" + title + "\"" }

  /** `s` shows `title` in double quotes somewhere. */
  predicate Quotes(s: string, title: string) {
    exists i :: 0 <= i <= |s| && Quote(title) <= s[i..]
  }

  predicate EndsWith(s: string, w: string) {
    |w| <= |s| && s[|s| - |w|..] == w
  }

  /** A quoted title between `pre` and `post`: it quotes the title and ends with `post`. */
  function Framed(pre: string, title: string, post: string): (r: string)
    ensures Quotes(r, title)
    ensures EndsWith(r, post)
  {
    var s := pre + Quote(title) + post;
    assert s[|pre|..] == Quote(title) + post;
    assert s[|s| - |post|..] == post;
    s
  }
}
