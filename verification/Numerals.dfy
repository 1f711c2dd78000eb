/** Writing natural numbers in a base up to sixteen, and reading them back. */
module Numerals {

  const DIGITS := "0123456789abcdef"

  function DigitChar(d: nat): char
    requires d < 16
  {
    DIGITS[d]
  }

  function DigitValue(c: char): (d: int)
    ensures -1 <= d < 16
    ensures d >= 0 ==> DIGITS[d] == c
  {
    if '0' <= c <= '9' then c as int - '0' as int
    else if 'a' <= c <= 'f' then c as int - 'a' as int + 10
    else -1
  }

  lemma DigitRoundTrip(d: nat)
    requires d < 16
    ensures DigitValue(DigitChar(d)) == d
  {
  }

  function Write(n: nat, base: nat): (s: string)
    requires 2 <= base <= 16
    ensures |s| > 0
    decreases n
  {
    if n < base then [DigitChar(n)] else Write(n / base, base) + [DigitChar(n % base)]
  }

  predicate AllDigits(s: string)
  {
    forall c | c in s :: DigitValue(c) >= 0
  }

  function Read(s: string, base: nat): (n: nat)
    requires AllDigits(s)
  {
    if s == "" then 0 else Read(s[..|s| - 1], base) * base + DigitValue(s[|s| - 1])
  }

  lemma {:induction false} WriteIsDigits(n: nat, base: nat)
    requires 2 <= base <= 16
    ensures AllDigits(Write(n, base))
    decreases n
  {
    if n < base {
      DigitRoundTrip(n);
    } else {
      WriteIsDigits(n / base, base);
      DigitRoundTrip(n % base);
    }
  }

  lemma ReadAppend(s: string, c: char, base: nat)
    requires AllDigits(s) && AllDigits(s + [c])
    ensures Read(s + [c], base) == Read(s, base) * base + DigitValue(c)
  {
    assert (s + [c])[..|s|] == s;
  }

  lemma WriteSplit(n: nat, base: nat) returns (q: nat, r: nat)
    requires 2 <= base <= 16 && n >= base
    ensures q < n && r < base && n == q * base + r
    ensures Write(n, base) == Write(q, base) + [DigitChar(r)]
  {
    hide Read;
    q, r := n / base, n % base;
  }

  lemma ReadSmall(n: nat, base: nat)
    requires 2 <= base <= 16 && n < base
    ensures AllDigits(Write(n, base)) && Read(Write(n, base), base) == n
  {
    DigitRoundTrip(n);
    ReadAppend("", DigitChar(n), base);
    assert "" + [DigitChar(n)] == [DigitChar(n)];
  }

  lemma ReadStep(s: string, q: nat, r: nat, base: nat)
    requires r < 16 && AllDigits(s) && Read(s, base) == q
    ensures AllDigits(s + [DigitChar(r)]) && Read(s + [DigitChar(r)], base) == q * base + r
  {
    DigitRoundTrip(r);
    ReadAppend(s, DigitChar(r), base);
  }

  /** Reading what was written gives the number back. */
  lemma {:induction false} ReadWrite(n: nat, base: nat)
    requires 2 <= base <= 16
    ensures AllDigits(Write(n, base)) && Read(Write(n, base), base) == n
    decreases n
  {
    hide *;
    if n < base {
      ReadSmall(n, base);
    } else {
      var q, r := WriteSplit(n, base);
      ReadWrite(q, base);
      ReadStep(Write(q, base), q, r, base);
    }
  }
}
