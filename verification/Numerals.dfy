/** Integers as text. */
module Numerals {
  function Digit(d: nat): (c: char)
    requires d < 10
  {
    ('0' as int + d) as char
  }

  function Numeral(n: nat): (s: string)
    ensures |s| > 0 && forall i :: 0 <= i < |s| ==> IsDigit(s[i])
  {
    if n < 10 then [Digit(n)] else Numeral(n / 10) + [Digit(n % 10)]
  }

  /** `strconv.FormatInt` in base ten. */
  function FormatInt(n: int): (s: string) {
    if n < 0 then "-" + Numeral(-n) else Numeral(n)
  }

  predicate IsDigit(c: char) {
    '0' <= c <= '9'
  }

  predicate AllDigits(s: string) {
    forall i :: 0 <= i < |s| ==> IsDigit(s[i])
  }

  function ParseNumeral(s: string): (n: int) {
    if s == "" then 0 else 10 * ParseNumeral(s[..|s| - 1]) + (s[|s| - 1] as int - '0' as int)
  }

  lemma {:induction false} NumeralRoundTrip(n: nat)
    ensures ParseNumeral(Numeral(n)) == n
  {
    var s := Numeral(n);
    if n < 10 {
      assert s[..0] == "";
    } else {
      assert s[..|s| - 1] == Numeral(n / 10);
      NumeralRoundTrip(n / 10);
    }
  }

  function TwoDigits(n: nat): (s: string)
    requires n < 100
  {
    [Digit(n / 10), Digit(n % 10)]
  }

  lemma TwoDigitValue(a: nat, b: nat)
    requires a < 10 && b < 10
    ensures ParseNumeral([Digit(a), Digit(b)]) == 10 * a + b
  {
    var s := [Digit(a), Digit(b)];
    assert s[..1] == [s[0]] && s[..1][..0] == "";
    assert ParseNumeral(s[..1]) == a;
  }

  function HexDigit(d: nat): (c: char)
    requires d < 16
  {
    if d < 10 then Digit(d) else ('a' as int + d - 10) as char
  }

  function HexValue(c: char): (d: int) {
    if c <= '9' then c as int - '0' as int else c as int - 'a' as int + 10
  }

  function ParseHex(s: string): (n: int) {
    if s == "" then 0 else 16 * ParseHex(s[..|s| - 1]) + HexValue(s[|s| - 1])
  }

  function Power16(k: nat): (n: nat)
    ensures n > 0
  {
    if k == 0 then 1 else 16 * Power16(k - 1)
  }

  /** The lowest `k` hexadecimal digits of `n`. */
  function HexDigits(n: nat, k: nat): (s: string)
    ensures |s| == k
  {
    if k == 0 then "" else HexDigits(n / 16, k - 1) + [HexDigit(n % 16)]
  }

  /** A numeral has no leading zero, so it is the shortest one of its value. */
  lemma {:induction false} NoLeadingZero(n: nat)
    ensures Numeral(n)[0] == '0' <==> n == 0
    ensures n < 10 ==> |Numeral(n)| == 1
  {
    if n < 10 {
    } else {
      NoLeadingZero(n / 10);
    }
  }

  /** The verb `%.2f` of a whole number of paise, in rupees. */
  function Decimal(p: nat): (s: string) {
    Numeral(p / 100) + "." + TwoDigits(p % 100)
  }

  function ParseDecimal(t: string): (p: int) {
    if |t| < 3 then 0 else ParseNumeral(t[..|t| - 3]) * 100 + ParseNumeral(t[|t| - 2..])
  }

  /** Digits, a dot and two digits, which read in rupees and paise. */
  lemma DecimalRoundTrip(p: nat)
    ensures ParseDecimal(Decimal(p)) == p
    ensures var t := Decimal(p);
            var n := |t| - 3;
            && n > 0 && AllDigits(t[..n]) && t[n] == '.' && AllDigits(t[n + 1..])
            && (n > 1 ==> t[0] != '0')
            && 100 * ParseNumeral(t[..n]) + ParseNumeral(t[n + 1..]) == p
  {
    var t := Decimal(p);
    assert t[..|t| - 3] == Numeral(p / 100) && t[|t| - 2..] == TwoDigits(p % 100);
    NoLeadingZero(p / 100);
    NumeralRoundTrip(p / 100);
    TwoDigitValue(p % 100 / 10, p % 100 % 10);
  }

  lemma HexDigitValue(d: nat)
    requires d < 16
    ensures HexValue(HexDigit(d)) == d
    ensures var c := HexDigit(d); '0' <= c <= '9' || 'a' <= c <= 'f'
  {
  }

  lemma HexSnoc(s: string, d: nat)
    requires d < 16
    ensures ParseHex(s + [HexDigit(d)]) == 16 * ParseHex(s) + d
  {
    assert (s + [HexDigit(d)])[..|s|] == s;
    HexDigitValue(d);
  }

  lemma Sixteenth(n: nat, p: nat) returns (m: nat, d: nat)
    requires n < 16 * p
    ensures n == 16 * m + d && d < 16 && m < p && m == n / 16 && d == n % 16
  {
    m, d := n / 16, n % 16;
  }

  lemma {:induction false} HexDigitsOnly(n: nat, k: nat)
    ensures forall c :: c in HexDigits(n, k) ==> '0' <= c <= '9' || 'a' <= c <= 'f'
  {
    if k == 0 {
    } else {
      HexDigitsOnly(n / 16, k - 1);
      HexDigitValue(n % 16);
    }
  }

  lemma HexStep(n: nat, k: nat, m: nat, d: nat)
    requires k > 0 && m == n / 16 && d == n % 16
    ensures ParseHex(HexDigits(n, k)) == 16 * ParseHex(HexDigits(m, k - 1)) + d
  {
    HexSnoc(HexDigits(m, k - 1), d);
  }

  /** They determine a number that has no more of them. */
  lemma {:induction false} HexRoundTrip(n: nat, k: nat)
    requires n < Power16(k)
    ensures ParseHex(HexDigits(n, k)) == n
  {
    if k == 0 {
    } else {
      var m, d := Sixteenth(n, Power16(k - 1));
      HexRoundTrip(m, k - 1);
      HexStep(n, k, m, d);
    }
  }
}
