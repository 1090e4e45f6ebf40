/**
 * The price of a call as the usage log records it: scaled to hundred-thousandths
 * of a dollar, cut to twelve significant digits, then rounded up. Over the exact
 * non-negative reals; the noise of doubles is not part of it.
 */
module UsageCost {
  import opened Wrappers
  import opened Decimals
  import opened Products

  const COST_SCALE := 100000.0
  const COST_PRECISION := 12

  /** Ten to the power of `e`. */
  function Pow10(e: int): (p: real)
    ensures p > 0.0
    decreases if e < 0 then -e else e
  {
    if e == 0 then 1.0 else if e > 0 then 10.0 * Pow10(e - 1) else Pow10(e + 1) / 10.0
  }

  /** The decade of a positive number: the power of ten it begins with. */
  function Decade(x: real): (e: int)
    requires x > 0.0
    ensures Pow10(e) <= x < Pow10(e + 1)
  {
    if x >= 1.0 then DecadeUp(x) else DecadeDown(x)
  }

  function DecadeUp(x: real): (e: nat)
    requires x >= 1.0
    ensures Pow10(e) <= x < Pow10(e + 1)
    decreases x.Floor
  {
    if x < 10.0 then assert Pow10(1) == 10.0; 0 else DecadeUp(x / 10.0) + 1
  }

  function DecadeDown(x: real): (e: int)
    requires 0.0 < x < 1.0
    ensures e < 0 && Pow10(e) <= x < Pow10(e + 1)
    decreases (1.0 / x).Floor
  {
    if 10.0 * x >= 1.0 then -1
    else
      assert 1.0 / (10.0 * x) == (1.0 / x) / 10.0;
      assert 1.0 / x > 10.0 by { Reciprocal(x); }
      DecadeDown(10.0 * x) - 1
  }

  lemma Reciprocal(x: real)
    requires 0.0 < 10.0 * x < 1.0
    ensures 1.0 / x > 10.0
  {
    assert (1.0 / x) * x == 1.0;
  }

  /** The last place kept of a number with this decade. */
  function Unit(e: int): (u: real)
    ensures u > 0.0
  {
    Pow10(e - (COST_PRECISION - 1))
  }

  /** To the nearest whole number, a half up. */
  function Nearest(y: real): int {
    (y + 0.5).Floor
  }

  /** `toPrecision(12)`: the number with its first twelve significant digits. */
  function ToPrecision(x: real): real
    requires x >= 0.0
  {
    if x == 0.0 then 0.0
    else
      var u := Unit(Decade(x));
      Nearest(x / u) as real * u
  }

  function Ceiling(y: real): int {
    if y.Floor as real == y then y.Floor else y.Floor + 1
  }

  /** What is recorded, in hundred-thousandths of a dollar. */
  function RecordedUnits(cost: real): int
    requires cost >= 0.0
  {
    Ceiling(ToPrecision(cost * COST_SCALE))
  }

  function Recorded(cost: real): real
    requires cost >= 0.0
  {
    RecordedUnits(cost) as real / COST_SCALE
  }

  // ------------------------------------------------------------------
  // Powers of ten.

  lemma {:induction false} Pow10Adds(a: int, b: int)
    ensures Pow10(a + b) == Times(Pow10(a), Pow10(b))
    decreases if b < 0 then -b else b
  {
    hide Pow10, Times;
    if b > 0 {
      Pow10Adds(a, b - 1);
      Pow10Steps(a + b - 1);
      Pow10Steps(b - 1);
      TenTimes(Pow10(a), Pow10(b - 1));
    } else if b < 0 {
      Pow10Adds(a, b + 1);
      Pow10Steps(a + b);
      Pow10Steps(b);
      TenTimes(Pow10(a), Pow10(b));
    } else {
      Pow10OfZero();
      Commutes(Pow10(a), 1.0);
      ByLiterals(Pow10(a));
    }
  }

  lemma Pow10OfZero()
    ensures Pow10(0) == 1.0
  {
  }

  lemma Pow10Steps(e: int)
    ensures Pow10(e + 1) == 10.0 * Pow10(e)
  {
  }

  lemma {:induction false} Pow10Grows(a: int, b: int)
    requires a <= b
    ensures Pow10(a) <= Pow10(b)
    decreases b - a
  {
    if a < b {
      Pow10Grows(a, b - 1);
      Pow10Steps(b - 1);
    }
  }

  lemma {:induction false} Pow10IsWhole(e: nat)
    ensures Pow10(e).Floor as real == Pow10(e) && Pow10(e) >= 1.0
  {
    if e > 0 {
      Pow10IsWhole(e - 1);
      assert Pow10(e) == (10 * Pow10(e - 1).Floor) as real;
    }
  }

  lemma DecadeIsUnique(x: real, e: int)
    requires x > 0.0 && Pow10(e) <= x < Pow10(e + 1)
    ensures Decade(x) == e
  {
    if Decade(x) < e {
      Pow10Grows(Decade(x) + 1, e);
    } else if Decade(x) > e {
      Pow10Grows(e + 1, Decade(x));
    }
  }

  /** In its last place a number is between 10^11 and 10^12. */
  lemma InUnits(x: real)
    requires x > 0.0
    ensures var e := Decade(x);
            && Pow10(e) == 100000000000.0 * Unit(e) && Pow10(e + 1) == 1000000000000.0 * Unit(e)
    ensures var u := Unit(Decade(x));
            && 100000000000.0 <= Over(x, u) < 1000000000000.0 && Times(Over(x, u), u) == x && u <= x * 0.00000000001
  {
    hide Pow10, Decade, Times, Over;
    var e := Decade(x);
    var u := Unit(e);
    var q := Over(x, u);
    ElevenAndTwelve();
    Pow10Adds(e - 11, 11);
    Pow10Adds(e - 11, 12);
    Commutes(u, 100000000000.0);
    Commutes(u, 1000000000000.0);
    OverTimes(x, u);
    Shrinks(100000000000.0, q, u);
    if 1000000000000.0 <= q {
      Grows(1000000000000.0, q, u);
    }
    TimesLiterals(u);
  }

  lemma TimesLiterals(u: real)
    ensures Times(100000000000.0, u) == 100000000000.0 * u && Times(1000000000000.0, u) == 1000000000000.0 * u
  {
  }

  lemma ElevenAndTwelve()
    ensures Pow10(11) == 100000000000.0 && Pow10(12) == 1000000000000.0
  {
    assert Pow10(1) == 10.0 && Pow10(2) == 100.0 && Pow10(3) == 1000.0;
    assert Pow10(4) == 10000.0 && Pow10(5) == 100000.0 && Pow10(6) == 1000000.0;
    assert Pow10(7) == 10000000.0 && Pow10(8) == 100000000.0 && Pow10(9) == 1000000000.0;
    assert Pow10(10) == 10000000000.0 && Pow10(11) == 100000000000.0;
  }

  // ------------------------------------------------------------------
  // The cut to twelve digits.

  lemma PrecisionIs(x: real)
    requires x > 0.0
    ensures var u := Unit(Decade(x)); ToPrecision(x) == Times(Nearest(Over(x, u)) as real, u)
  {
    hide Pow10, Decade, Unit;
  }

  lemma NearestIsNear(y: real)
    ensures y - 0.5 <= Nearest(y) as real <= y + 0.5
  {
  }

  lemma NearestIsBetween(y: real, a: int, b: int)
    requires a as real <= y <= b as real
    ensures a <= Nearest(y) <= b
  {
  }

  lemma NearestIsMonotone(p: real, q: real)
    requires p <= q
    ensures Nearest(p) <= Nearest(q)
  {
  }

  lemma NearestOf(k: int, f: real)
    requires 0.0 <= f < 1.0
    ensures Nearest(k as real + f) == if f < 0.5 then k else k + 1
  {
  }

  /** It stays in the decade, and is off by at most half a unit of the last place. */
  lemma PrecisionIsNear(x: real)
    requires x > 0.0
    ensures var e := Decade(x);
            && Pow10(e) <= ToPrecision(x) <= Pow10(e + 1)
            && 2.0 * x - Unit(e) <= 2.0 * ToPrecision(x) <= 2.0 * x + Unit(e)
  {
    hide Pow10, Decade, Unit, ToPrecision, Nearest, Times, Over;
    var u := Unit(Decade(x));
    var y := Over(x, u);
    var n := Nearest(y) as real;
    InUnits(x);
    PrecisionIs(x);
    NearestIsNear(y);
    NearestIsBetween(y, 100000000000, 1000000000000);
    TimesLiterals(u);
    Grows(100000000000.0, n, u);
    Grows(n, 1000000000000.0, u);
    Grows(y + -0.5, n, u);
    Grows(n, y + 0.5, u);
    Distributes(y, -0.5, u);
    Distributes(y, 0.5, u);
    ByLiterals(u);
  }

  lemma PrecisionIsMonotone(x: real, y: real)
    requires 0.0 <= x <= y
    ensures 0.0 <= ToPrecision(x) <= ToPrecision(y)
  {
    if x > 0.0 {
      PrecisionIsMonotoneAboveZero(x, y);
    } else if y > 0.0 {
      PrecisionIsPositive(y);
    }
  }

  lemma PrecisionIsPositive(x: real)
    requires x > 0.0
    ensures ToPrecision(x) > 0.0
  {
    hide Decade, Unit, ToPrecision;
    PrecisionIsNear(x);
  }

  lemma PrecisionIsMonotoneAboveZero(x: real, y: real)
    requires 0.0 < x <= y
    ensures 0.0 < ToPrecision(x) <= ToPrecision(y)
  {
    hide Pow10, Decade, Unit, ToPrecision, Times, Over, Nearest;
    PrecisionIsNear(x);
    PrecisionIsNear(y);
    var d, e := Decade(x), Decade(y);
    if d < e {
      Pow10Grows(d + 1, e);
    } else {
      if d > e {
        Pow10Grows(e + 1, d);
      }
      PrecisionIs(x);
      PrecisionIs(y);
      SameDecade(x, y, Unit(d));
    }
  }

  lemma SameDecade(x: real, y: real, u: real)
    requires x <= y && u > 0.0
    ensures Times(Nearest(Over(x, u)) as real, u) <= Times(Nearest(Over(y, u)) as real, u)
  {
    hide Nearest, Times, Over;
    var p, q := Over(x, u), Over(y, u);
    OverTimes(x, u);
    OverTimes(y, u);
    Shrinks(p, q, u);
    NearestIsMonotone(p, q);
    Grows(Nearest(p) as real, Nearest(q) as real, u);
  }

  // ------------------------------------------------------------------
  // The promises of the recorded cost.

  /** A dearer call is never recorded as cheaper, across the decades of the cut too. */
  lemma RecordedIsMonotone(a: real, b: real)
    requires 0.0 <= a <= b
    ensures Recorded(a) <= Recorded(b)
  {
    hide ToPrecision;
    PrecisionIsMonotone(a * COST_SCALE, b * COST_SCALE);
  }

  /** Free is recorded as free, and nothing else is. */
  lemma ZeroOnlyForZero(cost: real)
    requires cost >= 0.0
    ensures Recorded(cost) == 0.0 <==> cost == 0.0
    ensures cost > 0.0 ==> Recorded(cost) >= 0.00001
  {
    hide Pow10, Decade, Unit;
    if cost > 0.0 {
      PrecisionIsPositive(cost * COST_SCALE);
    }
  }

  /** What is recorded is what was spent, up to the thirteenth digit and one hundred-thousandth upwards. */
  lemma RecordedIsNear(cost: real)
    requires cost >= 0.0
    ensures cost * (1.0 - 0.000000000005) <= Recorded(cost) <= cost * (1.0 + 0.000000000005) + 0.00001
  {
    hide Pow10, Decade, Unit;
    if cost > 0.0 {
      var x := cost * COST_SCALE;
      PrecisionIsNear(x);
      InUnits(x);
    }
  }

  /** The coarser of the last place kept and a whole hundred-thousandth. */
  function Grain(e: int): (g: real)
    ensures g > 0.0
  {
    if Unit(e) >= 1.0 then Unit(e) else 1.0
  }

  /** What a scaled cost is above a multiple of its grain. */
  function Excess(x: real): (r: real)
    requires x > 0.0
  {
    var g := Grain(Decade(x));
    x - (x / g).Floor as real * g
  }

  /**
   * Less than was spent is recorded exactly when the scaled cost lies above a
   * multiple of its grain by less than half a unit of its twelfth digit: the cut
   * then takes off what the rounding up was to keep.
   */
  lemma RecordedBelowSpentExactlyWhen(cost: real)
    requires cost > 0.0
    ensures var x := cost * COST_SCALE;
            Recorded(cost) < cost <==> 0.0 < Excess(x) && 2.0 * Excess(x) < Unit(Decade(x))
  {
    hide Pow10, Decade, Unit, ToPrecision, Excess, Nearest, Ceiling, Times, Over;
    var x := cost * COST_SCALE;
    var u := Unit(Decade(x));
    PrecisionIs(x);
    OverTimes(x, u);
    ExcessIs(x);
    assert Recorded(cost) < cost <==> Ceiling(ToPrecision(x)) as real < x;
    if u >= 1.0 {
      UnitIsWhole(Decade(x));
      CoarseUnit(x, Over(x, u), u);
    } else {
      var w := UnitIsAFraction(Decade(x));
      FineUnit(x, Over(x, u), u, w);
    }
  }

  lemma ExcessIs(x: real)
    requires x > 0.0
    ensures var u := Unit(Decade(x));
            Excess(x) == if u >= 1.0 then x - Times(Over(x, u).Floor as real, u) else x - x.Floor as real
  {
    hide Decade, Unit;
    assert x / 1.0 == x;
  }

  lemma UnitIsWhole(e: int)
    requires Unit(e) >= 1.0
    ensures Unit(e).Floor as real == Unit(e)
  {
    if e < 11 {
      assert Pow10(-1) == 0.1;
      Pow10Grows(e - 11, -1);
    } else {
      Pow10IsWhole(e - 11);
    }
  }

  lemma UnitIsAFraction(e: int) returns (w: int)
    requires Unit(e) < 1.0
    ensures w > 0 && Times(w as real, Unit(e)) == 1.0
  {
    hide Times;
    if e >= 11 {
      Pow10IsWhole(e - 11);
      w := 1;
    } else {
      Pow10IsWhole(11 - e);
      Pow10Adds(11 - e, e - 11);
      assert Pow10(0) == 1.0;
      w := Pow10(11 - e).Floor;
    }
  }

  /** Where the last place kept is a whole number, the rounding up does nothing. */
  lemma CoarseUnit(x: real, y: real, u: real)
    requires u >= 1.0 && u.Floor as real == u && Times(y, u) == x
    ensures var r := x - Times(y.Floor as real, u);
            Ceiling(Times(Nearest(y) as real, u)) as real < x <==> 0.0 < r && 2.0 * r < u
  {
    hide Nearest, Ceiling, Times;
    var k := y.Floor;
    var f := y - k as real;
    NearestOf(k, f);
    WholeProduct(Nearest(y), u);
    Distributes(k as real, f, u);
    Distributes(k as real, 1.0, u);
    ByLiterals(u);
    HalfOf(f, u);
    assert (k + 1) as real == k as real + 1.0 && y == k as real + f;
    if f > 0.0 {
      GrowsStrictly(0.0, f, u);
    }
  }

  lemma HalfOf(f: real, u: real)
    requires u > 0.0 && 0.0 <= f < 1.0
    ensures 0.0 <= Times(f, u) < u && (f < 0.5 <==> 2.0 * Times(f, u) < u)
  {
    hide Times;
    ByLiterals(u);
    Grows(0.0, f, u);
    GrowsStrictly(f, 1.0, u);
    if f < 0.5 {
      GrowsStrictly(f, 0.5, u);
    } else {
      Grows(0.5, f, u);
    }
  }

  lemma WholeProduct(n: int, u: real)
    requires u.Floor as real == u
    ensures Ceiling(Times(n as real, u)) as real == Times(n as real, u)
  {
    assert Times(n as real, u) == (n * u.Floor) as real;
  }

  /** Where a whole number has more places than are kept, it is the last place that the rounding up keeps. */
  lemma FineUnit(x: real, y: real, u: real, w: int)
    requires x > 0.0 && 0.0 < u < 1.0 && w > 0 && Times(w as real, u) == 1.0 && Times(y, u) == x
    ensures var r := x - x.Floor as real;
            Ceiling(Times(Nearest(y) as real, u)) as real < x <==> 0.0 < r && 2.0 * r < u
  {
    hide Nearest, Ceiling, Times;
    var k := x.Floor;
    var r := x - k as real;
    var z := Times(r, w as real);
    FineQuotient(x, y, u, w, k, r);
    NearestShifts(k * w, z);
    FineProduct(k, w, Nearest(z), u);
    ByLiterals(w as real);
    Grows(0.0, r, w as real);
    FineRest(r, z, u);
    NearestIsSmall(z);
    ByLiterals(u);
    if z >= 0.5 {
      Grows(1.0, Nearest(z) as real, u);
    }
    CeilingOf(Times(Nearest(y) as real, u), k);
  }

  lemma FineQuotient(x: real, y: real, u: real, w: int, k: int, r: real)
    requires u > 0.0 && Times(w as real, u) == 1.0 && Times(y, u) == x && x == k as real + r
    ensures y == (k * w) as real + Times(r, w as real) && Times(Times(r, w as real), u) == r
  {
    hide Times;
    var z := Times(r, w as real);
    Associates(r, w as real, u);
    Associates(k as real, w as real, u);
    Commutes(r, 1.0);
    Commutes(k as real, 1.0);
    ByLiterals(r);
    ByLiterals(k as real);
    WholeTimes(k, w);
    Distributes((k * w) as real, z, u);
    Cancels(y, (k * w) as real + z, u);
  }

  lemma WholeTimes(k: int, w: int)
    ensures Times(k as real, w as real) == (k * w) as real
  {
  }

  lemma NearestShifts(m: int, z: real)
    ensures Nearest(m as real + z) == m + Nearest(z)
  {
  }

  lemma FineProduct(k: int, w: int, n: int, u: real)
    requires Times(w as real, u) == 1.0
    ensures Times((k * w + n) as real, u) == k as real + Times(n as real, u)
  {
    hide Times;
    WholeTimes(k, w);
    Associates(k as real, w as real, u);
    Commutes(k as real, 1.0);
    ByLiterals(k as real);
    Distributes((k * w) as real, n as real, u);
    assert (k * w + n) as real == (k * w) as real + n as real;
  }

  lemma FineRest(r: real, z: real, u: real)
    requires u > 0.0 && Times(z, u) == r
    ensures 2.0 * r < u <==> z < 0.5
  {
    hide Times;
    ByLiterals(u);
    if z < 0.5 {
      GrowsStrictly(z, 0.5, u);
    } else {
      Grows(0.5, z, u);
    }
  }

  lemma NearestIsSmall(z: real)
    requires 0.0 <= z
    ensures if z < 0.5 then Nearest(z) == 0 else Nearest(z) >= 1
  {
  }

  lemma CeilingOf(p: real, k: int)
    ensures p == k as real ==> Ceiling(p) == k
    ensures p > k as real ==> Ceiling(p) >= k + 1
  {
  }

  /** A number of at most twelve significant digits: it is `n` units of the twelfth. */
  predicate IsWholeUnits(x: real, n: nat)
    requires x > 0.0
  {
    x == Times(n as real, Unit(Decade(x)))
  }

  lemma TwelveDigitsAreKept(x: real, n: nat)
    requires x > 0.0 && IsWholeUnits(x, n)
    ensures ToPrecision(x) == x
  {
    hide Pow10, Decade, Unit, ToPrecision, Times, Over, Nearest;
    var u := Unit(Decade(x));
    OverTimes(x, u);
    Cancels(Over(x, u), n as real, u);
    NearestOf(n, 0.0);
    PrecisionIs(x);
  }

  /** A cost whose scaled value has at most twelve significant digits is never recorded below itself. */
  lemma TwelveDigitsAreNeverRecordedBelow(cost: real, n: nat)
    requires cost > 0.0 && IsWholeUnits(cost * COST_SCALE, n)
    ensures Recorded(cost) >= cost
  {
    hide Pow10, Decade, Unit, ToPrecision, IsWholeUnits;
    TwelveDigitsAreKept(cost * COST_SCALE, n);
  }

  /** A price can be recorded below what was spent: 10.000000000001 dollars as 10. */
  lemma ALongPriceIsRecordedBelow()
    ensures Recorded(10.000000000001) == 10.0
  {
    var x := 10.000000000001 * COST_SCALE;
    assert x == 1000000.0000001;
    assert Pow10(1) == 10.0 && Pow10(2) == 100.0 && Pow10(3) == 1000.0;
    assert Pow10(4) == 10000.0 && Pow10(5) == 100000.0 && Pow10(6) == 1000000.0;
    assert Pow10(7) == 10000000.0;
    DecadeIsUnique(x, 6);
    assert Pow10(-1) == 0.1 && Pow10(-2) == 0.01 && Pow10(-3) == 0.001;
    assert Pow10(-4) == 0.0001 && Pow10(-5) == 0.00001;
    assert Unit(6) == 0.00001;
    assert x / 0.00001 == 100000000000.01;
    assert Nearest(x / Unit(6)) == 100000000000;
  }

  // ------------------------------------------------------------------
  // A log of calls.

  function Spent(costs: seq<real>): (sum: real)
    requires forall i | 0 <= i < |costs| :: costs[i] >= 0.0
    ensures sum >= 0.0
  {
    if costs == [] then 0.0 else costs[0] + Spent(costs[1..])
  }

  function Logged(costs: seq<real>): (sum: real)
    requires forall i | 0 <= i < |costs| :: costs[i] >= 0.0
  {
    if costs == [] then 0.0 else Recorded(costs[0]) + Logged(costs[1..])
  }

  /** A log of n calls is off by one in 2 * 10^11 at most, and by n hundred-thousandths upwards. */
  lemma {:induction false} ALogIsNear(costs: seq<real>)
    requires forall i | 0 <= i < |costs| :: costs[i] >= 0.0
    ensures Spent(costs) * (1.0 - 0.000000000005) <= Logged(costs)
    ensures Logged(costs) <= Spent(costs) * (1.0 + 0.000000000005) + |costs| as real * 0.00001
  {
    if costs != [] {
      RecordedIsNear(costs[0]);
      ALogIsNear(costs[1..]);
    }
  }

  // ------------------------------------------------------------------
  // The column.

  function Padded(n: nat, width: nat): (s: string)
    requires width <= 5
    ensures |s| == width && forall i | 0 <= i < |s| :: '0' <= s[i] <= '9'
  {
    if width == 0 then "" else Padded(n / 10, width - 1) + [Digit(n % 10)]
  }

  /** A price the driver takes: dollars, a point and five decimals; none for a call without a price. */
  function ToCostUsdColumn(cost: Option<real>): Option<string>
    requires cost.Some? ==> cost.value >= 0.0
  {
    match cost
    case None => None
    case Some(c) =>
      RecordedIsNatural(c);
      var units := RecordedUnits(c);
      Some(Decimal(units / 100000) + "." + Padded(units % 100000, 5))
  }

  lemma RecordedIsNatural(cost: real)
    requires cost >= 0.0
    ensures RecordedUnits(cost) >= 0
  {
    ZeroOnlyForZero(cost);
  }

  /** The number a column stands for, in hundred-thousandths: its digits without the point. */
  function ReadColumn(column: string): nat
    requires |column| > 6 && column[|column| - 6] == '.'
    requires forall i | 0 <= i < |column| && i != |column| - 6 :: '0' <= column[i] <= '9'
  {
    Value(column[..|column| - 6]) * 100000 + Value(column[|column| - 5..])
  }

  lemma {:induction false} ValueOfPadded(n: nat, width: nat)
    requires width <= 5 && n < Power(width)
    ensures Value(Padded(n, width)) == n
  {
    if width > 0 {
      ValueOfPadded(n / 10, width - 1);
      assert Padded(n, width)[..width - 1] == Padded(n / 10, width - 1);
    }
  }

  function Power(k: nat): nat {
    if k == 0 then 1 else 10 * Power(k - 1)
  }

  /** The column reads back as exactly the cost recorded; a call without a price has none. */
  lemma TheColumnIsTheRecordedCost(cost: Option<real>)
    requires cost.Some? ==> cost.value >= 0.0
    ensures ToCostUsdColumn(cost).None? <==> cost.None?
    ensures cost.Some? ==>
              var column := ToCostUsdColumn(cost).value;
              && |column| > 6 && column[|column| - 6] == '.'
              && (forall i | 0 <= i < |column| && i != |column| - 6 :: '0' <= column[i] <= '9')
              && ReadColumn(column) as real / COST_SCALE == Recorded(cost.value)
  {
    if cost.Some? {
      RecordedIsNatural(cost.value);
      var units := RecordedUnits(cost.value);
      var whole, rest := Decimal(units / 100000), Padded(units % 100000, 5);
      var column := whole + "." + rest;
      assert column[..|column| - 6] == whole && column[|column| - 5..] == rest;
      ValueOfDecimal(units / 100000);
      assert Power(5) == 100000;
      ValueOfPadded(units % 100000, 5);
    }
  }
}
