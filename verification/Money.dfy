/** Amounts and the rounding that a NUMERIC(15,2) column applies when a value is stored.

    Money is counted in paise.  A stored value is an `int`; an amount in flight is a `real`,
    because nothing restricts a request to two decimals. */
module Money {

  /** The stored value of `x`: the nearest paisa, ties away from zero. */
  function Rnd(x: real): (r: int)
    ensures IsNearest(x, r)
  {
    if x >= 0.0 then (x + 0.5).Floor else -((0.5 - x).Floor)
  }

  /** `r` is a nearest integer of `x`, and the one further from zero when there are two. */
  predicate IsNearest(x: real, r: int) {
    && -0.5 <= x - r as real <= 0.5
    && (x - r as real == 0.5 ==> x < 0.0)
    && (x - r as real == -0.5 ==> x > 0.0)
  }

  /** `x` lies exactly half way between two paise. */
  predicate IsTie(x: real) {
    x - x.Floor as real == 0.5
  }

  predicate IsWhole(x: real) {
    x == x.Floor as real
  }

  function Bit(b: bool): (n: nat) { if b then 1 else 0 }

  lemma NearestIsUnique(x: real, r: int)
    requires IsNearest(x, r)
    ensures r == Rnd(x)
  {
    var d := r - Rnd(x);
    assert -1.0 <= d as real <= 1.0;
  }

  lemma RndWhole(n: int)
    ensures Rnd(n as real) == n
  {
    NearestIsUnique(n as real, n);
  }

  lemma RndShift(b: int, m: int)
    ensures Rnd(b as real + m as real) == b + m
    ensures Rnd(b as real + -(m as real)) == b - m
  {
    assert b as real + m as real == (b + m) as real && b as real + -(m as real) == (b - m) as real;
    RndWhole(b + m);
    RndWhole(b - m);
  }

  lemma RndMonotone(x: real, y: real)
    requires x <= y
    ensures Rnd(x) <= Rnd(y)
  {
    var d := Rnd(y) - Rnd(x);
    assert d as real == Rnd(y) as real - Rnd(x) as real;
    assert d >= 0 || d <= -1;
  }

  /** Exactly how a stored balance `b` moves when `x` is subtracted before rounding: by the
      stored amount, except that a tie leaving a positive remainder loses one paisa less. */
  lemma RndDebit(b: int, x: real)
    requires x > 0.0
    ensures Rnd(b as real - x) == b - Rnd(x) + Bit(IsTie(x) && b as real > x)
  {
    var r := b - Rnd(x) + Bit(IsTie(x) && b as real > x);
    TieMeansHalf(x);
    NearestIsUnique(b as real - x, r);
  }

  /** The same for a credit: a tie that leaves the balance negative gains one paisa less. */
  lemma RndCredit(b: int, x: real)
    requires x > 0.0
    ensures Rnd(b as real + x) == b + Rnd(x) - Bit(IsTie(x) && b as real + x < 0.0)
  {
    var r := b + Rnd(x) - Bit(IsTie(x) && b as real + x < 0.0);
    TieMeansHalf(x);
    NearestIsUnique(b as real + x, r);
  }

  /** A positive amount is a tie exactly when storing it rounds it up by half a paisa. */
  lemma TieMeansHalf(x: real)
    requires x > 0.0
    ensures IsTie(x) <==> Rnd(x) as real - x == 0.5
  {
    if Rnd(x) as real - x == 0.5 {
      assert x.Floor == Rnd(x) - 1;
    } else if IsTie(x) {
      NearestIsUnique(x, x.Floor + 1);
    }
  }

  /** A whole amount is never a tie, and is stored as it is. */
  lemma WholeIsStoredExactly(x: real)
    requires IsWhole(x)
    ensures !IsTie(x) && Rnd(x) as real == x
  {
    RndWhole(x.Floor);
  }
}
