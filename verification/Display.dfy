/** Balances as they are shown: rupees with Indian digit grouping and two digits of paise. */
module Display {
  import opened Money
  import opened Numerals

  // --- Grouping -------------------------------------------------------------------------------------

  /** Commas before every second character from the right. */
  function Pairs(s: string): (r: string) {
    if |s| <= 2 then s else Pairs(s[..|s| - 2]) + "," + s[|s| - 2..]
  }

  /** The last three characters apart, the rest in pairs. */
  function Grouped(s: string): (r: string) {
    if |s| <= 3 then s else Pairs(s[..|s| - 3]) + "," + s[|s| - 3..]
  }

  method FormatWithCommas(n: int) returns (result: string)
    ensures result == Grouped(FormatInt(n))
  {
    var s := FormatInt(n);
    if |s| <= 3 {
      return s;
    }
    ghost var whole := s;
    result := s[|s| - 3..];
    s := s[..|s| - 3];
    while |s| > 2
      invariant |s| > 0
      invariant Pairs(s) + "," + result == Grouped(whole)
    {
      assert Pairs(s) + "," + result == Pairs(s[..|s| - 2]) + "," + (s[|s| - 2..] + "," + result);
      result := s[|s| - 2..] + "," + result;
      s := s[..|s| - 2];
    }
    if |s| > 0 {
      result := s + "," + result;
    }
  }

  function DeleteCommas(s: string): (r: string) {
    if s == "" then ""
    else DeleteCommas(s[..|s| - 1]) + if s[|s| - 1] == ',' then "" else [s[|s| - 1]]
  }

  predicate CommaFree(s: string) {
    forall i :: 0 <= i < |s| ==> s[i] != ','
  }

  lemma {:induction false} DeleteConcat(a: string, b: string)
    ensures DeleteCommas(a + b) == DeleteCommas(a) + DeleteCommas(b)
    decreases |b|
  {
    if b == "" {
      assert a + b == a;
    } else {
      assert (a + b)[..|a + b| - 1] == a + b[..|b| - 1];
      DeleteConcat(a, b[..|b| - 1]);
    }
  }

  lemma {:induction false} DeleteNothing(s: string)
    requires CommaFree(s)
    ensures DeleteCommas(s) == s
  {
    if s == "" {
    } else {
      DeleteNothing(s[..|s| - 1]);
    }
  }

  lemma DeleteComma()
    ensures DeleteCommas(",") == ""
  {
    assert ","[..0] == "";
  }

  lemma DeleteJoint(s: string, grouped: string, last: string)
    requires DeleteCommas(grouped) == s && CommaFree(last)
    ensures DeleteCommas(grouped + "," + last) == s + last
  {
    DeleteConcat(grouped + ",", last);
    DeleteConcat(grouped, ",");
    DeleteComma();
    DeleteNothing(last);
  }

  lemma PairsOfConcat(head: string, last: string)
    requires head != "" && |last| == 2
    ensures Pairs(head + last) == Pairs(head) + "," + last
  {
    var s := head + last;
    assert s[..|s| - 2] == head && s[|s| - 2..] == last;
  }

  lemma GroupedOfConcat(head: string, last: string)
    requires head != "" && |last| == 3
    ensures Grouped(head + last) == Pairs(head) + "," + last
  {
    var s := head + last;
    assert s[..|s| - 3] == head && s[|s| - 3..] == last;
  }

  lemma {:induction false} DeleteFromPairs(s: string)
    requires CommaFree(s)
    ensures DeleteCommas(Pairs(s)) == s
    decreases |s|
  {
    if |s| <= 2 {
      DeleteNothing(s);
    } else {
      var head, last := s[..|s| - 2], s[|s| - 2..];
      assert s == head + last;
      DeleteFromPairs(head);
      PairsOfConcat(head, last);
      DeleteJoint(head, Pairs(head), last);
    }
  }

  lemma DeleteFromGrouped(s: string)
    requires CommaFree(s)
    ensures DeleteCommas(Grouped(s)) == s
  {
    if |s| <= 3 {
      DeleteNothing(s);
    } else {
      var head, last := s[..|s| - 3], s[|s| - 3..];
      assert s == head + last;
      DeleteFromPairs(head);
      GroupedOfConcat(head, last);
      DeleteJoint(head, Pairs(head), last);
    }
  }

  lemma IntIsCommaFree(n: int)
    ensures CommaFree(FormatInt(n))
  {
  }

  /** For every integer, deleting the commas gives its decimal numeral back. */
  lemma CommasRoundTrip(n: int)
    ensures DeleteCommas(Grouped(FormatInt(n))) == FormatInt(n)
  {
    IntIsCommaFree(n);
    DeleteFromGrouped(FormatInt(n));
  }

  function ParseInt(s: string): (n: int) {
    if s != "" && s[0] == '-' then -ParseNumeral(s[1..]) else ParseNumeral(s)
  }

  lemma IntRoundTrip(n: int)
    ensures ParseInt(FormatInt(n)) == n
  {
    if n < 0 {
      assert FormatInt(n)[1..] == Numeral(-n);
      NumeralRoundTrip(-n);
    } else {
      NumeralRoundTrip(n);
    }
  }

  /** So a parser that ignores commas undoes the grouping, and no two integers are shown alike. */
  lemma GroupingIsInjective(m: int, n: int)
    ensures ParseInt(DeleteCommas(Grouped(FormatInt(n)))) == n
    ensures Grouped(FormatInt(m)) == Grouped(FormatInt(n)) ==> m == n
  {
    CommasRoundTrip(m);
    CommasRoundTrip(n);
    IntRoundTrip(m);
    IntRoundTrip(n);
  }

  /** One or two digits, then any number of comma-led pairs. */
  predicate PairedShape(t: string) {
    || (1 <= |t| <= 2 && AllDigits(t))
    || (|t| >= 4 && PairedShape(t[..|t| - 3]) && t[|t| - 3] == ',' && AllDigits(t[|t| - 2..]))
  }

  /** Up to three digits, or the above followed by a comma-led group of three. */
  predicate IndianShape(t: string) {
    || (1 <= |t| <= 3 && AllDigits(t))
    || (|t| >= 5 && PairedShape(t[..|t| - 4]) && t[|t| - 4] == ',' && AllDigits(t[|t| - 3..]))
  }

  lemma {:induction false} PairsHaveShape(s: string)
    requires |s| >= 1 && AllDigits(s)
    ensures PairedShape(Pairs(s)) && |Pairs(s)| >= 1
    decreases |s|
  {
    if |s| <= 2 {
    } else {
      PairsHaveShape(s[..|s| - 2]);
      var t := Pairs(s);
      assert t[..|t| - 3] == Pairs(s[..|s| - 2]) && t[|t| - 2..] == s[|s| - 2..];
    }
  }

  lemma {:induction false} PairsKeepFirst(s: string)
    requires s != ""
    ensures Pairs(s) != "" && Pairs(s)[0] == s[0]
    decreases |s|
  {
    if |s| <= 2 {
    } else {
      PairsKeepFirst(s[..|s| - 2]);
    }
  }

  lemma {:induction false} PairsStartWithDigit(t: string)
    requires PairedShape(t)
    ensures IsDigit(t[0])
    decreases |t|
  {
    if 1 <= |t| <= 2 && AllDigits(t) {
    } else {
      PairsStartWithDigit(t[..|t| - 3]);
    }
  }

  lemma DigitsHaveShape(s: string)
    requires |s| >= 1 && AllDigits(s)
    ensures IndianShape(Grouped(s))
  {
    if |s| > 3 {
      var head, last := s[..|s| - 3], s[|s| - 3..];
      PairsHaveShape(head);
      var t := Grouped(s);
      assert t[..|t| - 4] == Pairs(head) && t[|t| - 3..] == last;
    }
  }

  lemma ShapeStartsWithDigit(t: string)
    requires IndianShape(t)
    ensures IsDigit(t[0])
  {
    if !(1 <= |t| <= 3 && AllDigits(t)) { PairsStartWithDigit(t[..|t| - 4]); }
  }

  lemma GroupedKeepsFirst(s: string)
    requires s != ""
    ensures Grouped(s) != "" && Grouped(s)[0] == s[0]
  {
    if |s| > 3 { PairsKeepFirst(s[..|s| - 3]); }
  }

  /** Numbers are shown in Indian grouping exactly when they are not negative. */
  lemma ShapeIffNonNegative(n: int)
    ensures IndianShape(Grouped(FormatInt(n))) <==> n >= 0
  {
    var s := FormatInt(n);
    if n >= 0 {
      DigitsHaveShape(s);
    } else {
      GroupedKeepsFirst(s);
      if IndianShape(Grouped(s)) { ShapeStartsWithDigit(Grouped(s)); }
    }
  }

  /** A negative number of three digits shows a sign in a group of its own. */
  lemma NegativeHundredIsMisgrouped()
    ensures Grouped(FormatInt(-100)) == "-,100"
  {
    assert Numeral(1) == "1" && Numeral(10) == "10" && Numeral(100) == "100";
    assert FormatInt(-100) == "-100";
    assert Pairs("-100"[..1]) == "-";
  }

  // --- Amounts ----------------------------------------------------------------------------------------

  /** Conversion to an integer, toward zero. */
  function Truncate(x: real): (n: int) {
    if x >= 0.0 then x.Floor else -((-x).Floor)
  }

  /** The verb `%02d`. */
  function PadTwo(n: int): (s: string) {
    if 0 <= n < 10 then "0" + Numeral(n) else FormatInt(n)
  }

  /** The paise of an amount, as they are computed for display. */
  function Paise(rupees: real): (n: int) {
    Rnd((rupees - Truncate(rupees) as real) * 100.0)
  }

  function FormatAmount(rupees: real, symbol: string): (s: string) {
    symbol + Grouped(FormatInt(Truncate(rupees))) + "." + PadTwo(Paise(rupees))
  }

  /** Reads what is shown after the symbol. */
  function ParseAmount(t: string): (p: int) {
    if |t| < 3 then 0 else ParseNumeral(DeleteCommas(t[..|t| - 3])) * 100 + ParseNumeral(t[|t| - 2..])
  }

  /** Stored amounts split into rupees and paise exactly. */
  lemma StoredSplits(p: nat)
    ensures Truncate(p as real / 100.0) == p / 100
    ensures Paise(p as real / 100.0) == p % 100
  {
    var q, r := p / 100, p % 100;
    assert p as real == 100.0 * (q as real) + r as real;
    assert p as real / 100.0 == q as real + r as real / 100.0;
    RndWhole(r);
  }

  lemma PadTwoDigits(n: nat)
    requires n < 100
    ensures PadTwo(n) == TwoDigits(n) && ParseNumeral(TwoDigits(n)) == n
  {
    if n >= 10 { assert Numeral(n / 10) == [Digit(n / 10)]; }
    TwoDigitValue(n / 10, n % 10);
  }

  /** Every stored non-negative amount is shown as its grouped rupees, a dot and exactly two digits of
      paise. */
  lemma AmountIsShown(p: nat, symbol: string)
    ensures FormatAmount(p as real / 100.0, symbol) ==
            symbol + Grouped(Numeral(p / 100)) + "." + TwoDigits(p % 100)
  {
    StoredSplits(p);
    PadTwoDigits(p % 100);
  }

  lemma ParseParts(q: nat, r: nat)
    requires r < 100
    ensures ParseAmount(Grouped(Numeral(q)) + "." + TwoDigits(r)) == 100 * q + r
  {
    var t := Grouped(Numeral(q)) + "." + TwoDigits(r);
    assert t[..|t| - 3] == Grouped(Numeral(q)) && t[|t| - 2..] == TwoDigits(r);
    CommasRoundTrip(q);
    NumeralRoundTrip(q);
    PadTwoDigits(r);
  }

  /** And reading that gives the amount back. */
  lemma AmountRoundTrip(p: nat, symbol: string)
    ensures var shown := FormatAmount(p as real / 100.0, symbol);
            |shown| >= |symbol| && ParseAmount(shown[|symbol|..]) == p
  {
    AmountIsShown(p, symbol);
    ParseParts(p / 100, p % 100);
    AfterSymbol(symbol, Grouped(Numeral(p / 100)), TwoDigits(p % 100));
  }

  lemma AfterSymbol(symbol: string, rupees: string, paise: string)
    ensures (symbol + rupees + "." + paise)[|symbol|..] == rupees + "." + paise
  {
  }

  /** The paise of a stored amount, of either sign, always fit two digits. */
  lemma StoredFitsTwoDigits(p: int)
    ensures -100 < Paise(p as real / 100.0) < 100
  {
    if p >= 0 {
      StoredSplits(p);
    } else {
      StoredSplits(-p);
      assert p as real / 100.0 == -((-p) as real / 100.0);
      RndOdd((-p) as real / 100.0);
    }
  }

  lemma RndOdd(rupees: real)
    requires rupees > 0.0
    ensures Paise(-rupees) == -Paise(rupees)
  {
    var whole := rupees.Floor;
    assert Truncate(-rupees) == -whole && Truncate(rupees) == whole;
    var x := (rupees - whole as real) * 100.0;
    assert (-rupees - Truncate(-rupees) as real) * 100.0 == -x;
    NearestIsUnique(-x, -Rnd(x));
  }

  /** A negative stored balance is shown with its sign on the paise as well as, from one rupee on, on the
      rupees. */
  lemma NegativeIsShown(p: nat, symbol: string)
    requires p > 0
    ensures FormatAmount(-(p as real / 100.0), symbol) ==
            symbol + Grouped(if p < 100 then "0" else "-" + Numeral(p / 100)) + "."
            + if p % 100 == 0 then "00" else "-" + Numeral(p % 100)
  {
    StoredSplits(p);
    RndOdd(p as real / 100.0);
    assert Truncate(-(p as real / 100.0)) == -(p / 100);
    assert Numeral(0) == "0";
  }

  /** For an amount that is not stored, which no caller passes, the paise would come out as 100 instead of
      carrying: exactly from 99.5 paise on. */
  lemma CarryIsLost(rupees: real)
    requires rupees >= 0.0
    ensures 0 <= Paise(rupees) <= 100
    ensures Paise(rupees) == 100 <==> rupees - rupees.Floor as real >= 0.995
  {
    var x := (rupees - rupees.Floor as real) * 100.0;
    RndWhole(0);
    RndWhole(100);
    RndMonotone(0.0, x);
    RndMonotone(x, 100.0);
    if x >= 99.5 {
      NearestIsUnique(99.5, 100);
      RndMonotone(99.5, x);
    }
  }
}
