/** The conversions between the two number types of json.hpp, int64_t and double, that comparing an integer with a
    floating-point number goes through. A double is the real number it stands for: below 2^53 any real is allowed for
    one, from there on only the whole numbers that a 53-bit significand can hold. */
module JsonNumbers {
  import opened Prelude

  const EXACT: int := 0x20_0000_0000_0000

  /** static_cast to an integer: towards zero. */
  function Truncate(r: real): int { if r >= 0.0 then r.Floor else -((-r).Floor) }

  function Magnitude(n: int): nat { if n < 0 then -n else n }

  /** The distance between the doubles around m. */
  function Ulp(m: nat): (u: nat)
    ensures u > 0
  {
    if m < EXACT then 1 else 2 * Ulp(m / 2)
  }

  /** The nearest double, and of two the one with the even significand. */
  function Nearest(m: nat): nat {
    var u := Ulp(m);
    var q, rest := m / u, m % u;
    if 2 * rest < u || (2 * rest == u && q % 2 == 0) then q * u else (q + 1) * u
  }

  function RoundInt(n: int): int {
    var m: int := Nearest(Magnitude(n));
    if n < 0 then -m else m
  }

  /** static_cast to a floating-point number: to the nearest. */
  function ToDouble(n: int): real { RoundInt(n) as real }

  predicate Whole(r: real) { Truncate(r) as real == r }

  /** A double for which the cast to an integer is defined. */
  predicate Double(r: real) {
    && -HALF64 as real <= r < HALF64 as real
    && (-EXACT as real < r < EXACT as real || (Whole(r) && RoundInt(Truncate(r)) == Truncate(r)))
  }

  predicate IsInt64(n: int) { -HALF64 <= n < HALF64 }

  /** No other integer is rounded to it: it is whole, and either below 2^53 or an odd multiple of two below 2^54. */
  predicate Settled(r: real) {
    Whole(r) && SettledInt(Magnitude(Truncate(r)))
  }

  predicate SettledInt(m: nat) { m < EXACT || (m < 2 * EXACT && m % 4 == 2) }

  /** It is less than, and greater than, the integers that it should be: it is settled, or negative and not below
      -2^53. */
  predicate InPlace(r: real) { Settled(r) || -EXACT as real <= r < 0.0 }

  // ----- Rounding -----

  lemma NearestSmall(m: nat)
    requires m < EXACT
    ensures Nearest(m) == m
  {
    assert Ulp(m) == 1;
  }

  lemma NearestMiddle(m: nat)
    requires EXACT <= m < 2 * EXACT
    ensures Nearest(m) == if m % 2 == 0 then m else if m % 4 == 1 then m - 1 else m + 1
  {
    assert Ulp(m / 2) == 1;
  }

  lemma {:induction false} UlpBounds(m: nat)
    requires m >= EXACT
    ensures EXACT / 2 * Ulp(m) <= m < EXACT * Ulp(m) && Ulp(m) % 2 == 0
    ensures m >= 2 * EXACT ==> Ulp(m) >= 4
  {
    if m / 2 >= EXACT { UlpBounds(m / 2); }
  }

  lemma {:induction false} UlpSame(k: nat, m: nat)
    requires k >= EXACT && EXACT / 2 * Ulp(k) <= m < EXACT * Ulp(k)
    ensures Ulp(m) == Ulp(k)
  {
    if k / 2 < EXACT {
      assert Ulp(k) == 2 && Ulp(m / 2) == 1;
    } else {
      UlpBounds(k / 2);
      UlpSame(k / 2, m / 2);
    }
  }

  lemma DivMod(q: nat, u: nat, rest: nat)
    requires rest < u
    ensures (q * u + rest) / u == q && (q * u + rest) % u == rest
  {
    var m := q * u + rest;
    var d := m / u;
    assert m == d * u + m % u;
    if d < q { Multiply(d + 1, q, u); }
    if d > q { Multiply(q + 1, d, u); }
  }

  lemma Multiply(a: nat, b: nat, u: nat)
    requires a <= b
    ensures a * u <= b * u
  {}

  lemma NearestLarge(m: nat)
    requires m >= 2 * EXACT
    ensures Nearest(m) >= 2 * EXACT
  {
    UlpBounds(m);
    var u := Ulp(m);
    var q := m / u;
    assert m == q * u + m % u;
    if q < EXACT / 2 { Multiply(q + 1, EXACT / 2, u); }
    Multiply(EXACT / 2, q, u);
    Multiply(q, q + 1, u);
  }

  /** A double from 2^54 on is also what the next integer is rounded to. */
  lemma NearestNext(m: nat)
    requires m >= 2 * EXACT && Nearest(m) == m
    ensures Nearest(m + 1) == m && m % 2 == 0
  {
    hide Ulp, Nearest;
    UlpBounds(m);
    var u := Ulp(m);
    NextSpacing(m, u, m / u);
    UlpSame(m, m + 1);
    JustAbove(m + 1, u, m / u);
    Even(m / u, u);
  }

  /** A double above 2^54 is also what the integer before it is rounded to. */
  lemma NearestBefore(m: nat)
    requires m > 2 * EXACT && Nearest(m) == m
    ensures Nearest(m - 1) == m
  {
    hide Ulp, Nearest;
    UlpBounds(m - 1);
    var u := Ulp(m - 1);
    if m < EXACT * u {
      UlpSame(m - 1, m);
      NextSpacing(m, u, m / u);
      JustBelow(m - 1, u, m / u);
    } else {
      JustBelow(m - 1, u, EXACT);
    }
  }

  lemma JustAbove(m: nat, u: nat, q: nat)
    requires u == Ulp(m) && u >= 4 && m == q * u + 1
    ensures Nearest(m) == q * u
  {
    hide Ulp;
    DivMod(q, u, 1);
  }

  lemma JustBelow(m: nat, u: nat, q: nat)
    requires u == Ulp(m) && u >= 4 && m == q * u - 1
    ensures Nearest(m) == q * u
  {
    hide Ulp;
    if q > 0 {
      assert m == (q - 1) * u + (u - 1);
      DivMod(q - 1, u, u - 1);
    }
  }

  /** Rounding keeps the order. */
  lemma NearestMonotone(a: nat, b: nat)
    requires a <= b
    ensures Nearest(a) <= Nearest(b)
  {
    hide Ulp, Nearest;
    if b < EXACT {
      NearestSmall(a);
      NearestSmall(b);
    } else if a < EXACT {
      NearestSmall(a);
      UlpBounds(b);
      NearestBounds(b);
      Multiply(2, Ulp(b), EXACT / 2);
    } else {
      UlpBounds(a);
      UlpBounds(b);
      NearestBounds(a);
      NearestBounds(b);
      if b < EXACT * Ulp(a) {
        UlpSame(a, b);
        SameUlpMonotone(a, b, Ulp(a));
      } else {
        UlpRises(a, b);
      }
    }
  }

  lemma SameUlpMonotone(a: nat, b: nat, u: nat)
    requires a <= b && Ulp(a) == u == Ulp(b)
    ensures Nearest(a) <= Nearest(b)
  {
    hide Ulp, Nearest;
    var p, low := Step(a, u);
    var q, low' := Step(b, u);
    StepsApart(p, q, u, low, low');
    SteppedMonotone(a, b, u, p, q, low, low + u, low', low' + u);
  }

  /** Between which two multiples of the distance m is, and which of them it is rounded to. */
  lemma Step(m: nat, u: nat) returns (q: nat, low: nat)
    requires u == Ulp(m)
    ensures low == q * u && low <= m < low + u
    ensures Nearest(m) == if 2 * (m - low) < u || (2 * (m - low) == u && q % 2 == 0) then low else low + u
  {
    hide Ulp, Nearest;
    q := m / u;
    low := q * u;
    Either(m, u, q);
  }

  lemma StepsApart(p: nat, q: nat, u: nat, low: nat, low': nat)
    requires low == p * u && low' == q * u
    ensures p < q ==> low + u <= low'
    ensures p > q ==> low' + u <= low
  {
    if p < q { Multiply(p + 1, q, u); }
    if p > q { Multiply(q + 1, p, u); }
  }

  lemma SteppedMonotone(a: nat, b: nat, u: nat, p: nat, q: nat, low: nat, high: nat, low': nat, high': nat)
    requires a <= b && low <= a < high && low' <= b < high' && high == low + u && high' == low' + u
    requires p < q ==> high <= low'
    requires p > q ==> high' <= low
    requires p == q ==> low == low'
    requires Nearest(a) == if 2 * (a - low) < u || (2 * (a - low) == u && p % 2 == 0) then low else high
    requires Nearest(b) == if 2 * (b - low') < u || (2 * (b - low') == u && q % 2 == 0) then low' else high'
    ensures Nearest(a) <= Nearest(b)
  {
    hide Nearest;
  }

  lemma Either(m: nat, u: nat, q: nat)
    requires u == Ulp(m) && q == m / u
    ensures q * u <= m < (q + 1) * u == q * u + u
    ensures Nearest(m) == if 2 * (m - q * u) < u || (2 * (m - q * u) == u && q % 2 == 0) then q * u else (q + 1) * u
  {
    hide Ulp;
    assert m == q * u + m % u;
    assert (q + 1) * u == q * u + u;
  }

  lemma {:induction false} UlpRises(a: nat, b: nat)
    requires EXACT <= a && EXACT * Ulp(a) <= b
    ensures 2 * Ulp(a) <= Ulp(b)
  {
    if a / 2 < EXACT {
      UlpBounds(b);
    } else {
      UlpRises(a / 2, b / 2);
    }
  }

  lemma NearestBounds(m: nat)
    requires m >= EXACT
    ensures EXACT / 2 * Ulp(m) <= Nearest(m) <= EXACT * Ulp(m)
  {
    hide Ulp, Nearest;
    UlpBounds(m);
    var u := Ulp(m);
    var q := m / u;
    Either(m, u, q);
    if q < EXACT / 2 { Multiply(q + 1, EXACT / 2, u); } else { Multiply(EXACT / 2, q, u); }
    if q >= EXACT { Multiply(EXACT, q, u); } else { Multiply(q + 1, EXACT, u); }
    Multiply(q, q + 1, u);
  }

  lemma Even(q: nat, u: nat)
    requires u % 2 == 0
    ensures q * u % 2 == 0
  {
    assert q * u == 2 * (q * (u / 2));
  }

  lemma NextSpacing(m: nat, u: nat, q: nat)
    requires u == Ulp(m) && q == m / u && u >= 4 && Nearest(m) == m && EXACT / 2 * u <= m < EXACT * u
    ensures m == q * u && m + 1 < EXACT * u
  {
    hide Ulp, Nearest;
    Either(m, u, q);
    assert (q + 1) * u == q * u + u;
    if q >= EXACT { Multiply(EXACT, q, u); } else { Multiply(q + 1, EXACT, u); }
  }

  // ----- Comparing -----

  /** A settled double is compared as the integer it is, in both directions. */
  lemma SettledCompares(n: int, r: real)
    requires Settled(r)
    ensures r == ToDouble(n) <==> n == Truncate(r)
    ensures r < ToDouble(n) <==> Truncate(r) < n
  {
    var k := Truncate(r);
    assert r == k as real;
    SettledRounds(n, k);
  }

  lemma SettledRounds(n: int, k: int)
    requires SettledInt(Magnitude(k))
    ensures RoundInt(n) == k <==> n == k
    ensures k < RoundInt(n) <==> k < n
  {
    hide Nearest;
    var m := Magnitude(n);
    if m < EXACT { NearestSmall(m); }
    else if m < 2 * EXACT { NearestMiddle(m); }
    else { NearestLarge(m); }
  }

  /** An integer that an unsettled whole double is the rounding of, although it is another number. */
  function Neighbour(r: real): int { Adjacent(Truncate(r)) }

  function Adjacent(k: int): int { if k == -EXACT then k - 1 else k + 1 }

  lemma NeighbourRounds(r: real)
    requires Double(r) && Whole(r) && !Settled(r)
    ensures IsInt64(Neighbour(r)) && ToDouble(Neighbour(r)) == r && Neighbour(r) != Truncate(r)
  {
    hide RoundInt;
    AdjacentRounds(Truncate(r));
  }

  lemma AdjacentRounds(k: int)
    requires IsInt64(k) && RoundInt(k) == k && !SettledInt(Magnitude(k))
    ensures IsInt64(Adjacent(k)) && RoundInt(Adjacent(k)) == k
  {
    hide Ulp, Nearest;
    var m := Magnitude(k);
    assert Nearest(m) == m && m >= EXACT;
    if k > 0 || k == -EXACT { AboveRounds(m); } else { BelowRounds(m); }
  }

  lemma AboveRounds(m: nat)
    requires m >= EXACT && Nearest(m) == m && !SettledInt(m)
    ensures Nearest(m + 1) == m && m % 2 == 0
  {
    hide Ulp, Nearest;
    if m < 2 * EXACT {
      NearestMiddle(m);
      assert m % 4 == 0;
      NearestMiddle(m + 1);
    } else {
      NearestNext(m);
    }
  }

  lemma BelowRounds(m: nat)
    requires m > EXACT && Nearest(m) == m && !SettledInt(m)
    ensures Nearest(m - 1) == m
  {
    hide Ulp, Nearest;
    if m <= 2 * EXACT {
      if m < 2 * EXACT { NearestMiddle(m); }
      NearestMiddle(m - 1);
    } else {
      NearestBefore(m);
    }
  }

  /** A double in place is less than, and greater than, the integers that it should be. */
  lemma PlacedCompares(n: int, r: real)
    requires InPlace(r)
    ensures r < ToDouble(n) <==> r < n as real
    ensures n < Truncate(r) <==> n as real < r
  {
    if Settled(r) {
      SettledCompares(n, r);
    } else {
      RoundsBeside(n);
    }
  }

  lemma RoundsBeside(n: int)
    ensures n >= 0 ==> RoundInt(n) >= 0
    ensures -EXACT <= n < 0 ==> RoundInt(n) == n
    ensures n < -EXACT ==> RoundInt(n) <= -EXACT
  {
    hide Nearest;
    var m := Magnitude(n);
    if m < EXACT { NearestSmall(m); }
    else if m < 2 * EXACT { NearestMiddle(m); }
    else { NearestLarge(m); }
  }

  lemma RoundMonotone(a: int, b: int)
    requires a <= b
    ensures RoundInt(a) <= RoundInt(b)
  {
    hide Nearest;
    if a >= 0 { NearestMonotone(a, b); }
    else if b < 0 { NearestMonotone(-b, -a); }
  }

  /** What has been rounded is a double. */
  lemma RoundTwice(n: int)
    ensures RoundInt(RoundInt(n)) == RoundInt(n)
  {
    hide Nearest;
    NearestTwice(Magnitude(n));
  }

  lemma NearestTwice(m: nat)
    ensures Nearest(Nearest(m)) == Nearest(m)
  {
    hide Ulp, Nearest;
    if m < EXACT {
      NearestSmall(m);
    } else {
      UlpBounds(m);
      NearestBounds(m);
      var r := NearestMultiple(m);
      if Nearest(m) < EXACT * Ulp(m) {
        UlpSame(m, Nearest(m));
        MultipleKept(Nearest(m), Ulp(m), r);
      } else {
        UlpTwice(m, Nearest(m));
        MultipleKept(Nearest(m), 2 * Ulp(m), EXACT / 2);
      }
    }
  }

  lemma NearestMultiple(m: nat) returns (r: nat)
    ensures Nearest(m) == r * Ulp(m)
  {
    hide Ulp, Nearest;
    var u := Ulp(m);
    r := m / u;
    Either(m, u, r);
    if Nearest(m) != r * u { r := r + 1; }
  }

  lemma UlpTwice(m: nat, d: nat)
    requires m >= EXACT && d == EXACT * Ulp(m)
    ensures Ulp(d) == 2 * Ulp(m)
  {
    assert d / 2 == EXACT / 2 * Ulp(m);
    UlpBounds(m);
    UlpSame(m, d / 2);
  }

  lemma MultipleKept(d: nat, u: nat, q: nat)
    requires u == Ulp(d) && d == q * u
    ensures Nearest(d) == d
  {
    hide Ulp;
    DivMod(q, u, 0);
  }

  /** An integer below a double is not rounded to one above it. */
  lemma BelowStays(n: int, r: real)
    requires Double(r) && n < Truncate(r)
    ensures ToDouble(n) <= r
  {
    hide Nearest;
    if InPlace(r) {
      PlacedCompares(n, r);
    } else {
      RoundMonotone(n, Truncate(r));
      if !Whole(r) { NearestSmall(Magnitude(Truncate(r))); }
    }
  }

  /** A double with a fractional part is not what its integral part is converted to. */
  lemma FractionLost(r: real)
    requires Double(r) && !Whole(r)
    ensures ToDouble(Truncate(r)) != r && IsInt64(Truncate(r))
  {
    NearestSmall(Magnitude(Truncate(r)));
  }
}
