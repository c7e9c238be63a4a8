/** Scaling a performance counter reading to nanoseconds in 64-bit arithmetic. */
module Clock {
  import opened Int64

  const NANOS: int := 1_000_000_000

  /** Go's integer division, which truncates toward zero. */
  function TruncDiv(a: int, b: int): int
    requires b > 0
  {
    if a >= 0 then a / b else -(-a / b)
  }

  function TruncMod(a: int, b: int): int
    requires b > 0
  {
    a - TruncDiv(a, b) * b
  }

  /** The expression as the machine evaluates it, every operation wrapping. */
  function Nanos(c: int, f: int): int
    requires f > 0
  {
    Wrap(Wrap(TruncDiv(c, f) * NANOS) + TruncDiv(Wrap(TruncMod(c, f) * NANOS), f))
  }

  /** The time meant: counts times a billion over the frequency, rounded down. */
  function Exact(c: nat, f: nat): nat
    requires f > 0
  {
    c * NANOS / f
  }

  /** Whole nanoseconds: f ticks make a second, and a second is a billion of them. */
  lemma ExactIsFloor(c: nat, f: nat)
    requires f > 0
    ensures Exact(c, f) * f <= c * 1_000_000_000 < (Exact(c, f) + 1) * f
  {
    var x := c * NANOS;
    assert x == x / f * f + x % f;
    assert (x / f + 1) * f == x / f * f + f;
  }

  lemma WholeMultiple(k: int, b: int)
    requires b > 0
    ensures k >= 1 ==> k * b >= b
    ensures k <= -1 ==> k * b <= -b
  {
  }

  lemma DivUnique(a: int, b: int, q: int)
    requires b > 0 && q * b <= a < q * b + b
    ensures a / b == q
  {
    var d, r := a / b, a % b;
    assert a == d * b + r && 0 <= r < b;
    WholeMultiple(q - d, b);
    assert (q - d) * b == q * b - d * b;
  }

  lemma DivSplit(q: int, r: int, f: int)
    requires f > 0
    ensures (q * f + r) / f == q + r / f
  {
    var d, m := r / f, r % f;
    assert r == d * f + m;
    assert (q + d) * f == q * f + d * f;
    DivUnique(q * f + r, f, q + d);
  }

  /** Splitting the divide from the multiply loses nothing. */
  lemma SplitIsExact(c: nat, f: nat)
    requires f > 0
    ensures (c / f) * NANOS + (c % f) * NANOS / f == Exact(c, f)
  {
    var q, r := c / f, c % f;
    assert c == q * f + r;
    assert c * NANOS == (q * NANOS) * f + r * NANOS;
    DivSplit(q * NANOS, r * NANOS, f);
  }

  lemma DivMonotone(a: int, b: int, f: int)
    requires f > 0 && a <= b
    ensures a / f <= b / f
  {
    var x, y := a / f, b / f;
    assert a == x * f + a % f && b == y * f + b % f;
    WholeMultiple(x - y, f);
    assert (x - y) * f == x * f - y * f;
  }

  lemma ExactIsMonotone(c: nat, d: nat, f: nat)
    requires f > 0 && c <= d
    ensures Exact(c, f) <= Exact(d, f)
  {
    DivMonotone(c * NANOS, d * NANOS, f);
  }

  /** The largest frequency for which the remainder, scaled, always fits. */
  const MAX_FREQ: nat := 9_223_372_037

  lemma RemainderFits(r: nat, f: nat)
    requires r < f <= MAX_FREQ
    ensures r * NANOS <= MAX_INT64
  {
  }

  // ----- when a product wraps -----

  /** A product that does not fit loses at least one multiple of 2^64, and that shows after the division. */
  lemma WrapShrinks(x: int, f: nat)
    requires x > MAX_INT64 && 0 < f <= MAX_INT64
    ensures TruncDiv(Wrap(x), f) < x / f
  {
    var w := Wrap(x);
    var k := (x + TWO63) / TWO64;
    assert w == x - k * TWO64 && k >= 1;
    assert w <= x - 2 * f;
    DivMonotone(w, x - 2 * f, f);
    DivSplit(-2, x, f);
    TruncIsNear(w, f);
  }

  lemma TruncIsNear(a: int, f: nat)
    requires f > 0
    ensures a / f <= TruncDiv(a, f) <= a / f + 1
  {
    if a < 0 {
      var d, r := a / f, a % f;
      assert -a == (-d) * f - r;
      assert (-d - 1) * f == (-d) * f - f;
      if r == 0 { DivUnique(-a, f, -d); } else { DivUnique(-a, f, -d - 1); }
    }
  }

  /** How far the division of a wrapped product can be off. */
  lemma WrapIsNear(x: int, f: nat)
    requires 0 <= x < f * NANOS && 0 < f <= MAX_INT64
    ensures -TWO63 <= TruncDiv(Wrap(x), f) && x / f < NANOS
  {
    var w := Wrap(x);
    TruncIsNear(w, f);
    assert w >= -TWO63 * f;
    DivMonotone(-TWO63 * f, w, f);
    DivUnique(-TWO63 * f, f, -TWO63);
    DivMonotone(x, f * NANOS - 1, f);
    assert f * NANOS - 1 == NANOS * f + -1;
    DivSplit(NANOS, -1, f);
    DivUnique(-1, f, -1);
  }

  lemma WrapAbsorbs(x: int, y: int)
    ensures Wrap(Wrap(x) + y) == Wrap(x + y)
  {
    var k := (x + TWO63) / TWO64;
    assert Wrap(x) + y == x + y - k * TWO64;
    WrapPeriod(x + y, k);
  }

  lemma WrapPeriod(x: int, k: int)
    ensures Wrap(x - k * TWO64) == Wrap(x)
  {
    var y := x + TWO63;
    var d, r := y / TWO64, y % TWO64;
    assert y - k * TWO64 == (d - k) * TWO64 + r;
    DivUnique(y - k * TWO64, TWO64, d - k);
  }

  // ----- the clock -----

  /** On a count that is not negative the machine's division is the usual one, and only the total wraps. */
  lemma NanosUnfolds(c: nat, f: nat, high: nat, low: nat)
    requires f > 0 && high == (c / f) * NANOS && low == (c % f) * NANOS
    ensures Nanos(c, f) == Wrap(high + TruncDiv(Wrap(low), f))
  {
    assert c == c / f * f + c % f;
    assert TruncMod(c, f) == c % f;
    WrapAbsorbs(high, TruncDiv(Wrap(low), f));
  }

  /** The second term of the sum, wrapped or not. */
  lemma LowTerm(r: nat, f: nat) returns (low: nat, rest: nat, got: int)
    requires r < f <= MAX_INT64
    ensures low == r * NANOS && rest == low / f && got == TruncDiv(Wrap(low), f)
    ensures low <= MAX_INT64 ==> got == rest
    ensures low > MAX_INT64 ==> 0 < rest - got < TWO64
  {
    low := r * NANOS;
    LowIsNonNegative(low, f);
    rest, got := low / f, TruncDiv(Wrap(low), f);
    if low <= MAX_INT64 {
      WrapFits(low);
    } else {
      WrapShrinks(low, f);
      ScaledIsBelow(r, f);
      WrapIsNear(low, f);
    }
  }

  lemma SumFits(high: nat, rest: nat, got: int, fits: bool)
    requires if fits then got == rest else 0 < rest - got < TWO64
    ensures Wrap(high + got) == high + rest <==> high + rest <= MAX_INT64 && fits
  {
    if high + rest <= MAX_INT64 { WrapFits(high + rest); }
    if !fits { WrapSeparates(high + rest, high + got); }
  }

  /**
   For every frequency, the machine's result is the exact time just when the exact time is an
   int64 and the scaled remainder is too.
   */
  lemma NanosIsExact(c: nat, f: nat)
    requires 0 < f <= MAX_INT64 && c <= MAX_INT64
    ensures Nanos(c, f) == Exact(c, f) <==> Exact(c, f) <= MAX_INT64 && (c % f) * NANOS <= MAX_INT64
  {
    var high, low, rest, got := Terms(c, f);
    SumFits(high, rest, got, low <= MAX_INT64);
  }

  /** The sum as it is evaluated, and as it is meant. */
  lemma Terms(c: nat, f: nat) returns (high: nat, low: nat, rest: nat, got: int)
    requires 0 < f <= MAX_INT64 && c <= MAX_INT64
    ensures low == (c % f) * NANOS
    ensures Nanos(c, f) == Wrap(high + got) && Exact(c, f) == high + rest
    ensures low <= MAX_INT64 ==> got == rest
    ensures low > MAX_INT64 ==> 0 < rest - got < TWO64
  {
    high := (c / f) * NANOS;
    low, rest, got := LowTerm(c % f, f);
    NanosUnfolds(c, f, high, low);
    SplitIsExact(c, f);
  }

  lemma ScaledIsBelow(r: nat, f: nat)
    requires r < f
    ensures r * NANOS < f * NANOS
  {
  }

  /** Up to MAX_FREQ the remainder never matters, and every intermediate fits when the result does. */
  lemma NanosFits(c: nat, f: nat)
    requires 0 < f <= MAX_FREQ && c <= MAX_INT64
    ensures Nanos(c, f) == Exact(c, f) <==> Exact(c, f) <= MAX_INT64
    ensures Exact(c, f) <= MAX_INT64 ==>
              && 0 <= (c / f) * NANOS <= MAX_INT64
              && 0 <= (c % f) * NANOS <= MAX_INT64
  {
    NanosIsExact(c, f);
    RemainderFits(c % f, f);
    HighFits(c, f);
  }

  lemma HighFits(c: nat, f: nat)
    requires f > 0
    ensures 0 <= (c / f) * NANOS <= Exact(c, f)
  {
    var q, low := c / f, (c % f) * NANOS;
    SplitIsExact(c, f);
    LowIsNonNegative(low, f);
    assert q >= 0;
  }

  lemma LowIsNonNegative(low: nat, f: nat)
    requires f > 0
    ensures low / f >= 0
  {
  }

  /** A quotient of seconds that leaves room for the remainder is enough. */
  lemma SecondsBound(c: nat, f: nat)
    requires 0 < f && c / f <= 9_223_372_035
    ensures Exact(c, f) <= MAX_INT64
  {
    SplitIsExact(c, f);
    var r := c % f;
    assert r * NANOS < f * NANOS;
    DivMonotone(r * NANOS, f * NANOS, f);
    DivUnique(f * NANOS, f, NANOS);
  }

  /** The clock does not run backwards from c to d. */
  predicate Ordered(c: nat, d: nat, f: nat)
    requires f > 0
  {
    Nanos(c, f) <= Nanos(d, f)
  }

  /** While the time fits, the clock never runs backwards, just when the frequency is at most MAX_FREQ. */
  lemma NanosIsMonotone(f: nat)
    requires 0 < f <= MAX_INT64
    ensures f <= MAX_FREQ <==>
            forall c: nat, d: nat :: c <= d <= MAX_INT64 && Exact(d, f) <= MAX_INT64 ==> Ordered(c, d, f)
  {
    if f <= MAX_FREQ {
      forall c: nat, d: nat | c <= d <= MAX_INT64 && Exact(d, f) <= MAX_INT64 ensures Ordered(c, d, f) {
        ExactIsMonotone(c, d, f);
        NanosFits(c, f);
        NanosFits(d, f);
      }
    } else {
      var c := RunsBackwards(f);
    }
  }

  /** Above MAX_FREQ some count within the first second wraps to a time before zero. */
  lemma RunsBackwards(f: nat) returns (c: nat)
    requires MAX_FREQ < f <= MAX_INT64
    ensures c <= MAX_INT64 && Exact(c, f) <= MAX_INT64 && !Ordered(0, c, f)
  {
    c := WrappingCount(f);
    Backwards(c, f);
  }

  lemma WrappingCount(f: nat) returns (c: nat)
    requires MAX_FREQ < f <= MAX_INT64
    ensures c < f && Wrap(c * NANOS) + f <= 0
  {
    if f <= 0x40_0000_0000_0000 {
      c := MAX_FREQ;
    } else {
      c := 0x40_0000_0000_0000;
      assert Wrap(c * NANOS) == -TWO63;
    }
  }

  lemma Backwards(c: nat, f: nat)
    requires c < f <= MAX_INT64 && Wrap(c * NANOS) + f <= 0
    ensures Exact(c, f) <= MAX_INT64 && Nanos(c, f) < 0 == Nanos(0, f)
  {
    WrapsBelowZero(c, f);
    FirstSecond(0, f);
    ExactInSecond(c, f);
  }

  lemma WrapsBelowZero(c: nat, f: nat)
    requires c < f <= MAX_INT64 && Wrap(c * NANOS) + f <= 0
    ensures Nanos(c, f) < 0
  {
    FirstSecond(c, f);
    ScaledIsBelow(c, f);
    WrapIsNear(c * NANOS, f);
    Negative(Wrap(c * NANOS), f);
    WrapFits(TruncDiv(Wrap(c * NANOS), f));
  }

  lemma ExactInSecond(c: nat, f: nat)
    requires c < f <= MAX_INT64
    ensures Exact(c, f) <= MAX_INT64
  {
    ScaledIsBelow(c, f);
    WrapIsNear(c * NANOS, f);
  }

  /** Within the first second only the scaled count matters. */
  lemma FirstSecond(c: nat, f: nat)
    requires c < f
    ensures Nanos(c, f) == Wrap(TruncDiv(Wrap(c * NANOS), f))
  {
    SmallQuotient(c, f);
    NanosUnfolds(c, f, 0, c * NANOS);
  }

  lemma SmallQuotient(c: nat, f: nat)
    requires c < f
    ensures c / f == 0 && c % f == c
  {
    DivUnique(c, f, 0);
  }

  lemma Negative(a: int, f: nat)
    requires 0 < f <= -a
    ensures TruncDiv(a, f) <= -1
  {
    DivMonotone(f, -a, f);
    DivUnique(f, f, 1);
  }

  /** Scaling the count before dividing is right only while the product fits; splitting goes on. */
  lemma MultiplyFirstOverflows(c: nat, f: nat)
    requires 0 < f <= MAX_INT64
    ensures TruncDiv(Wrap(c * NANOS), f) == Exact(c, f) <==> c * NANOS <= MAX_INT64
  {
    if c * NANOS <= MAX_INT64 { WrapFits(c * NANOS); } else { WrapShrinks(c * NANOS, f); }
  }
}
