/** Decimal numerals: they name their number, and comparing (length, text) compares the numbers. */
module Numerals {
  import opened Prelude
  import opened Sorting

  predicate IsDigit(c: char) {
    '0' <= c <= '9'
  }

  predicate Numeral(s: string) {
    s != [] && forall i :: 0 <= i < |s| ==> IsDigit(s[i])
  }

  function Digit(d: nat): (c: char)
    requires d < 10
    ensures IsDigit(c) && Worth(c) == d
  {
    ('0' as int + d) as char
  }

  function Worth(c: char): (d: nat)
    requires IsDigit(c)
    ensures d < 10
  {
    c as int - '0' as int
  }

  /** The number as Python's `str` writes it. */
  function Decimal(n: nat): (s: string)
    ensures Numeral(s)
  {
    if n < 10 then [Digit(n)] else Decimal(n / 10) + [Digit(n % 10)]
  }

  function Value(s: string): nat
    requires forall i :: 0 <= i < |s| ==> IsDigit(s[i])
  {
    if s == [] then 0 else Value(s[..|s| - 1]) * 10 + Worth(s[|s| - 1])
  }

  function Power(n: nat): nat {
    if n == 0 then 1 else 10 * Power(n - 1)
  }

  lemma {:induction false} DecimalReadsBack(n: nat)
    ensures Value(Decimal(n)) == n
    ensures n > 0 ==> Decimal(n)[0] != '0'
  {
    var s := Decimal(n);
    if n < 10 {
      assert s[..0] == [];
    } else {
      DecimalReadsBack(n / 10);
      assert s[..|s| - 1] == Decimal(n / 10);
    }
  }

  /** Different numbers have different numerals. */
  lemma DecimalInjective(m: nat, n: nat)
    requires Decimal(m) == Decimal(n)
    ensures m == n
  {
    DecimalReadsBack(m);
    DecimalReadsBack(n);
  }

  /** Splitting off the leading digit. */
  lemma {:induction false} ValueFromFront(s: string)
    requires Numeral(s)
    ensures Value(s) == Worth(s[0]) * Power(|s| - 1) + Value(s[1..])
    ensures Value(s[1..]) < Power(|s| - 1)
  {
    if |s| == 1 {
      assert s[..0] == [];
    } else {
      var front := s[..|s| - 1];
      ValueFromFront(front);
      assert s[1..][..|s| - 2] == front[1..];
      assert Power(|s| - 1) == 10 * Power(|s| - 2);
      Tenfold(Worth(s[0]), Power(|s| - 2));
    }
  }

  lemma Tenfold(d: nat, p: nat)
    ensures d * (10 * p) == (d * p) * 10
  {
  }

  lemma LeadingDigit(d: nat, e: nat, p: nat, x: nat, y: nat)
    requires d < e && x < p && p > 0
    ensures d * p + x < e * p + y
  {
    assert (d + 1) * p <= e * p;
  }

  lemma {:induction false} SameLengthOrder(a: string, b: string)
    requires |a| == |b| && (forall i :: 0 <= i < |a| ==> IsDigit(a[i])) && (forall i :: 0 <= i < |b| ==> IsDigit(b[i]))
    ensures StringLeq(a, b) <==> Value(a) <= Value(b)
  {
    if a != [] {
      SameLengthOrder(a[1..], b[1..]);
      ValueFromFront(a);
      ValueFromFront(b);
      if Worth(a[0]) < Worth(b[0]) {
        LeadingDigit(Worth(a[0]), Worth(b[0]), Power(|a| - 1), Value(a[1..]), Value(b[1..]));
      }
      if Worth(b[0]) < Worth(a[0]) {
        LeadingDigit(Worth(b[0]), Worth(a[0]), Power(|a| - 1), Value(b[1..]), Value(a[1..]));
      }
    }
  }

  lemma {:induction false} PowerGrows(m: nat, n: nat)
    requires m <= n
    ensures 0 < Power(m) <= Power(n)
  {
    if m < n {
      PowerGrows(m, n - 1);
    } else if m > 0 {
      PowerGrows(m - 1, n - 1);
    }
  }

  lemma ShorterIsLess(a: string, b: string)
    requires Numeral(a) && Numeral(b) && |a| < |b| && b[0] != '0'
    ensures Value(a) < Value(b)
  {
    ValueFromFront(a);
    ValueFromFront(b);
    PowerGrows(|a|, |b| - 1);
    PowerGrows(|a| - 1, |a|);
    LeadingDigit(Worth(a[0]), 10, Power(|a| - 1), Value(a[1..]), 0);
    assert Power(|a|) == 10 * Power(|a| - 1);
    AtLeastOnce(Worth(b[0]), Power(|b| - 1));
  }

  lemma AtLeastOnce(d: nat, p: nat)
    requires d >= 1
    ensures d * p >= p
  {
  }

  /** Ordering the numerals of positive numbers by length, then text, orders the numbers. */
  lemma LengthThenTextOrders(m: nat, n: nat)
    requires m > 0 && n > 0
    ensures m <= n <==> |Decimal(m)| < |Decimal(n)| || (|Decimal(m)| == |Decimal(n)| && StringLeq(Decimal(m), Decimal(n)))
  {
    DecimalReadsBack(m);
    DecimalReadsBack(n);
    if |Decimal(m)| < |Decimal(n)| {
      ShorterIsLess(Decimal(m), Decimal(n));
    } else if |Decimal(n)| < |Decimal(m)| {
      ShorterIsLess(Decimal(n), Decimal(m));
    } else {
      SameLengthOrder(Decimal(m), Decimal(n));
    }
  }

  /** The number padded with zeros to at least three digits. */
  function ThreeDigits(n: nat): string {
    var s := Decimal(n);
    if |s| == 1 then "00" + s else if |s| == 2 then "0" + s else s
  }

  lemma {:induction false} LeadingZero(s: string)
    requires Numeral(s)
    ensures Numeral("0" + s) && Value("0" + s) == Value(s)
  {
    ValueFromFront("0" + s);
    assert ("0" + s)[1..] == s;
  }

  /** Padding keeps different numbers apart. */
  lemma ThreeDigitsInjective(m: nat, n: nat)
    requires ThreeDigits(m) == ThreeDigits(n)
    ensures m == n
  {
    ThreeDigitsReadBack(m);
    ThreeDigitsReadBack(n);
  }

  lemma ThreeDigitsReadBack(n: nat)
    ensures Numeral(ThreeDigits(n)) && Value(ThreeDigits(n)) == n
  {
    var s := Decimal(n);
    DecimalReadsBack(n);
    LeadingZero(s);
    LeadingZero("0" + s);
    assert "00" + s == "0" + ("0" + s);
  }
}
