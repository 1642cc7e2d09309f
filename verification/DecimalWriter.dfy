/** Decimal numbers in fmt's format.h and format.cc: counting digits with the number of leading zero bits, writing two
    digits at a time, formatting into a fixed buffer, and reading a number back. */
module DecimalWriter {
  import opened Numerals
  import opened Prelude

  const INT_MAX: nat := 0x7FFF_FFFF

  function Pow(b: nat, e: nat): (p: nat)
    requires b > 0
    ensures p > 0
  {
    if e == 0 then 1 else b * Pow(b, e - 1)
  }

  // ----- How many digits there are -----

  function CountOf(n: nat): (c: nat)
    ensures c == |DigitsOf(n)| > 0
  {
    if n < 10 then 1 else CountOf(n / 10) + 1
  }

  /** A number of c digits lies between two powers of ten. */
  lemma {:induction false} CountMeans(n: nat)
    ensures n < Pow(10, CountOf(n)) && (n >= 10 ==> Pow(10, CountOf(n) - 1) <= n)
  {
    if n < 10 {
      assert Pow(10, 1) == 10 * Pow(10, 0);
    } else {
      CountMeans(n / 10);
      if n / 10 < 10 { assert CountOf(n) == 2 && Pow(10, 1) == 10 * Pow(10, 0); }
    }
  }

  lemma {:induction false} PowGrows(b: nat, e: nat, f: nat)
    requires b > 0
    ensures e <= f ==> Pow(b, e) <= Pow(b, f)
  {
    if e < f {
      PowGrows(b, e, f - 1);
      AtLeast(b, Pow(b, f - 1));
    }
  }

  lemma AtLeast(b: nat, p: nat)
    requires b > 0
    ensures b * p >= p
  {}

  lemma CountIs(n: nat, c: nat)
    requires 0 < c && n < Pow(10, c) && (c > 1 ==> Pow(10, c - 1) <= n)
    ensures CountOf(n) == c
  {
    var d := CountOf(n);
    CountMeans(n);
    PowGrows(10, d, c - 1);
    PowGrows(10, c, d - 1);
    if c > d { FewDigits(n, d); }
  }

  lemma FewDigits(n: nat, d: nat)
    requires d == CountOf(n) == 1
    ensures n < 10
  {}

  /** The fallback: groups of four digits at a time. */
  method CountDigitsInLoop(value: nat) returns (count: nat)
    ensures count == CountOf(value)
  {
    var n := value;
    count := 1;
    while true
      invariant count >= 1 && count - 1 + CountOf(n) == CountOf(value)
      decreases n
    {
      if n < 10 { return; }
      if n < 100 {
        assert CountOf(n / 10) == 1;
        return count + 1;
      }
      if n < 1000 {
        assert CountOf(n / 10 / 10) == 1;
        return count + 2;
      }
      if n < 10000 {
        FourDigits(n);
        return count + 3;
      }
      FourFewer(n);
      n := n / 10000;
      count := count + 4;
    }
  }

  lemma FourDigits(n: nat)
    requires 1000 <= n < 10000
    ensures CountOf(n) == 4
  {
    assert n / 10 / 10 / 10 == n / 1000 && CountOf(n / 10 / 10 / 10) == 1;
    assert CountOf(n / 10 / 10) == 2;
  }

  lemma FourFewer(n: nat)
    requires n >= 10000
    ensures CountOf(n) == CountOf(n / 10000) + 4
  {
    assert n / 10 / 10 / 10 / 10 == n / 10000;
    assert CountOf(n / 10 / 10) == CountOf(n / 10 / 10 / 10 / 10) + 2;
  }

  // ----- Counting leading zero bits instead -----

  /** The number of bits of n: 64 - clzll(n), or 32 - clz(n). */
  function Bits(n: nat): nat { if n == 0 then 0 else Bits(n / 2) + 1 }

  /** n | 1 */
  function OrOne(n: nat): nat { if n % 2 == 0 then n + 1 else n }

  /** FMT_POWERS_OF_10(factor) */
  function PowersOf10(factor: nat): seq<nat> {
    [factor * 10, factor * 100, factor * 1000, factor * 10000, factor * 100000, factor * 1000000, factor * 10000000,
     factor * 100000000, factor * 1000000000]
  }

  function PowersOf10In32(): seq<nat> { [0] + PowersOf10(1) }

  function PowersOf10In64(): seq<nat> {
    [0] + PowersOf10(1) + PowersOf10(1000000000) + [1000000000 * 1000000000 * 10]
  }

  /** t, from the number of bits */
  function Estimate(bits: nat): nat { bits * 1233 / 4096 }

  lemma {:induction false} BitsMeans(n: nat)
    ensures n < Pow(2, Bits(n)) && (n > 0 ==> Bits(n) > 0 && Pow(2, Bits(n) - 1) <= n)
  {
    if n > 0 { BitsMeans(n / 2); }
  }

  lemma BitsUpTo(n: nat, k: nat)
    requires n < Pow(2, k)
    ensures Bits(n) <= k
  {
    BitsMeans(n);
    PowGrows(2, k, if Bits(n) > 0 then Bits(n) - 1 else 0);
  }

  /** The estimate is at most one too small: the powers of two with b and b - 1 bits lie between the powers of ten. */
  predicate Good(b: nat)
    requires b > 0
  {
    && (Estimate(b) > 0 ==> Pow(10, Estimate(b) - 1) <= Pow(2, b - 1))
    && Pow(2, b) <= Pow(10, Estimate(b) + 1)
  }

  lemma {:induction false} PowAdd(b: nat, e: nat, f: nat)
    requires b > 0
    ensures Pow(b, e + f) == Pow(b, e) * Pow(b, f)
  {
    if f > 0 {
      PowAdd(b, e, f - 1);
      Regroup(b, Pow(b, e), Pow(b, f - 1));
    }
  }

  lemma Regroup(a: int, b: int, c: int)
    ensures a * (b * c) == b * (a * c)
  {}

  /** 2^10 is a little more than 10^3; up to 2^60 the two stay close together. */
  lemma {:induction false} Kilos(k: nat)
    requires k <= 6
    ensures Pow(10, 3 * k) <= Pow(2, 10 * k) && 1000 * Pow(2, 10 * k) <= (1000 + 28 * k) * Pow(10, 3 * k)
  {
    if k > 0 {
      Kilos(k - 1);
      PowAdd(10, 3 * k - 3, 3);
      PowAdd(2, 10 * k - 10, 10);
      assert Pow(10, 3) == 1000 && Pow(2, 5) == 32 && Pow(2, 10) == 1024;
      KiloStep(k, Pow(2, 10 * k - 10), Pow(10, 3 * k - 3));
    }
  }

  lemma KiloStep(k: nat, p: nat, q: nat)
    requires 0 < k <= 6 && q <= p && 1000 * p <= (1000 + 28 * (k - 1)) * q
    ensures 1000 * q <= 1024 * p && 1000 * (1024 * p) <= (1000 + 28 * k) * (1000 * q)
  {
    if k == 1 {} else if k == 2 {} else if k == 3 {} else if k == 4 {} else if k == 5 {} else {}
  }

  /** The estimate for 10 k + j bits is 3 k digits and those for j bits. */
  lemma EstimateSplit(k: nat, j: nat)
    requires k <= 6 && j < 10
    ensures Estimate(10 * k + j) == 3 * k + Extra(j)
  {}

  lemma EstimateGood(b: nat)
    requires 0 < b <= 64
    ensures Good(b)
  {
    hide Pow;
    var k, j := b / 10, b % 10;
    EstimateSplit(k, j);
    GoodAbove(k, j);
    if Estimate(b) > 0 { GoodBelow(k, j); }
  }

  function Extra(j: nat): nat { if j < 4 then 0 else if j < 7 then 1 else 2 }

  lemma GoodAbove(k: nat, j: nat)
    requires k <= 6 && j < 10
    ensures Pow(2, 10 * k + j) <= Pow(10, 3 * k + Extra(j) + 1)
  {
    SmallPowers();
    hide Pow;
    Kilos(k);
    PowAdd(2, 10 * k, j);
    PowAdd(10, 3 * k, Extra(j) + 1);
    UpperGood(Pow(2, 10 * k), Pow(10, 3 * k), k, j);
    assert Pow(2, j) == Two(j);
  }

  lemma GoodBelow(k: nat, j: nat)
    requires k <= 6 && j < 10 && 10 * k + j > 0 && 3 * k + Extra(j) > 0
    ensures Pow(10, 3 * k + Extra(j) - 1) <= Pow(2, 10 * k + j - 1)
  {
    if Extra(j) > 0 {
      SmallPowers();
      hide Pow;
      Kilos(k);
      PowAdd(2, 10 * k, j - 1);
      PowAdd(10, 3 * k, Extra(j) - 1);
      LowerGood(Pow(2, 10 * k), Pow(10, 3 * k), j);
      assert Pow(2, j - 1) == Two(j - 1);
    } else {
      hide Pow;
      Kilos(k);
      LowerFull(10 * k + j, k, j);
    }
  }

  lemma SmallPowers()
    ensures Pow(2, 0) == 1 && Pow(2, 1) == 2 && Pow(2, 2) == 4 && Pow(2, 3) == 8 && Pow(2, 4) == 16
    ensures Pow(2, 5) == 32 && Pow(2, 6) == 64 && Pow(2, 7) == 128 && Pow(2, 8) == 256 && Pow(2, 9) == 512
    ensures Pow(10, 0) == 1 && Pow(10, 1) == 10 && Pow(10, 2) == 100 && Pow(10, 3) == 1000
  {
    assert Pow(2, 1) == 2 && Pow(2, 2) == 4 && Pow(2, 3) == 8;
    assert Pow(2, 4) == 16 && Pow(2, 5) == 32 && Pow(2, 6) == 64;
    assert Pow(2, 7) == 128 && Pow(2, 8) == 256 && Pow(2, 9) == 512;
  }

  lemma UpperGood(p: nat, q: nat, k: nat, j: nat)
    requires k <= 6 && 1000 * p <= (1000 + 28 * k) * q && j < 10
    ensures p * Two(j) <= q * (if j < 4 then 10 else if j < 7 then 100 else 1000)
  {
    Multiply(1000 + 28 * k, 1168, q);
    Multiply(Two(j), if j < 4 then 8 else if j < 7 then 64 else 512, p);
  }

  lemma Multiply(a: nat, b: nat, q: nat)
    requires a <= b
    ensures a * q <= b * q
  {}

  lemma LowerGood(p: nat, q: nat, j: nat)
    requires q <= p && 4 <= j < 10
    ensures q * (if j < 7 then 1 else 10) <= p * Two(j - 1)
  {
    Multiply(if j < 7 then 8 else 64, Two(j - 1), p);
  }

  function Two(j: nat): nat
    requires j < 10
  {
    if j == 0 then 1 else if j == 1 then 2 else if j == 2 then 4 else if j == 3 then 8 else if j == 4 then 16
    else if j == 5 then 32 else if j == 6 then 64 else if j == 7 then 128 else if j == 8 then 256 else 512
  }

  /** Without digits for j the power of ten is that of the kilos, divided by ten. */
  lemma LowerFull(b: nat, k: nat, j: nat)
    requires b == 10 * k + j && k > 0 && j < 4 && Pow(10, 3 * k) <= Pow(2, 10 * k)
    ensures Pow(10, 3 * k - 1) <= Pow(2, b - 1)
  {
    PowGrows(2, 10 * k - 1, b - 1);
    assert Pow(2, 10 * k) == 2 * Pow(2, 10 * k - 1) && Pow(10, 3 * k) == 10 * Pow(10, 3 * k - 1);
  }

  predicate Table(powers: seq<nat>, size: nat) {
    |powers| >= size && powers != [] && powers[0] == 0 && forall t :: 0 < t < size ==> powers[t] == Pow(10, t)
  }

  lemma TablesRight()
    ensures Table(PowersOf10In32(), 10) && Table(PowersOf10In64(), 20)
    ensures |PowersOf10In32()| == 10 && |PowersOf10In64()| == 20
  {
    var p := PowersOf10In64();
    assert Pow(10, 1) == 10 && Pow(10, 2) == 100 && Pow(10, 3) == 1000 && Pow(10, 4) == 10000 && Pow(10, 5) == 100000;
    assert Pow(10, 6) == 1000000 && Pow(10, 7) == 10000000 && Pow(10, 8) == 100000000 && Pow(10, 9) == 1000000000;
    assert Pow(10, 10) == 10000000000 && Pow(10, 11) == 100000000000 && Pow(10, 12) == 1000000000000;
    assert Pow(10, 13) == 10000000000000 && Pow(10, 14) == 100000000000000 && Pow(10, 15) == 1000000000000000;
    assert Pow(10, 16) == 10000000000000000 && Pow(10, 17) == 100000000000000000 && Pow(10, 18) == 1000000000000000000;
    assert Pow(10, 19) == 10000000000000000000;
  }

  /** count_digits, from the number of bits and a table of powers. */
  function CountFrom(n: nat, powers: seq<nat>): int
    requires Estimate(Bits(OrOne(n))) < |powers|
  {
    var t := Estimate(Bits(OrOne(n)));
    t - (if n < powers[t] then 1 else 0) + 1
  }

  lemma CountFromRight(n: nat, powers: seq<nat>, size: nat)
    requires Estimate(Bits(OrOne(n))) < size && Table(powers, size) && Bits(OrOne(n)) <= 64
    ensures CountFrom(n, powers) == CountOf(n)
  {
    var b := Bits(OrOne(n));
    hide Pow, Bits, CountOf, OrOne;
    BelowPower(n, b);
    EstimateGood(b);
    TenPower();
    CountBetween(n, powers, b, Estimate(b));
  }

  lemma CountBetween(n: nat, powers: seq<nat>, b: nat, t: nat)
    requires b > 0 && t < |powers| && (t == 0 ==> powers[t] == 0) && (t > 0 ==> powers[t] == Pow(10, t))
    requires n < Pow(2, b) <= Pow(10, t + 1) && (t > 0 ==> Pow(10, t - 1) <= Pow(2, b - 1) <= n)
    ensures CountOf(n) == t - (if n < powers[t] then 1 else 0) + 1
  {
    hide Pow;
    if t > 0 && n < powers[t] { CountIs(n, t); } else { CountIs(n, t + 1); }
  }

  lemma TenPower()
    ensures Pow(10, 1) == 10 && Pow(10, 0) == 1
  {}

  /** n | 1 has the same place between powers of two as n, unless n is zero. */
  lemma BelowPower(n: nat, b: nat)
    requires b == Bits(OrOne(n))
    ensures b > 0 && n < Pow(2, b) && (b > 1 ==> Pow(2, b - 1) <= n)
    ensures b == 1 ==> Estimate(b) == 0
  {
    BitsMeans(OrOne(n));
    if b > 1 { EvenPower(b - 1); }
    EvenPower(b);
  }

  lemma EvenPower(e: nat)
    requires e > 0
    ensures Pow(2, e) % 2 == 0
  {}

  function Count32(n: nat): int
    requires n < WORD32
  {
    WordSizes();
    CountInRange(n, 32);
    TablesRight();
    CountFrom(n, PowersOf10In32())
  }

  function Count64(n: nat): int
    requires n < WORD64
  {
    WordSizes();
    CountInRange(n, 64);
    TablesRight();
    CountFrom(n, PowersOf10In64())
  }

  lemma CountInRange(n: nat, width: nat)
    requires n < Pow(2, width) && (width == 32 || width == 64)
    ensures Bits(OrOne(n)) <= width && Estimate(Bits(OrOne(n))) < (if width == 32 then 10 else 20)
  {
    hide Pow, Bits;
    EvenPower(width);
    BitsUpTo(OrOne(n), width);
  }

  lemma WordSizes()
    ensures Pow(2, 32) == WORD32 && Pow(2, 64) == WORD64
  {
    SmallPowers();
    PowAdd(2, 8, 8);
    PowAdd(2, 16, 16);
    PowAdd(2, 32, 32);
  }

  /** For every 32- and 64-bit value the leading zeros give the number of digits. */
  lemma CountExact(n: nat)
    requires n < WORD64
    ensures Count64(n) == CountOf(n) == |DigitsOf(n)| && (n < WORD32 ==> Count32(n) == CountOf(n))
  {
    TablesRight();
    WordSizes();
    hide Pow, Bits, CountOf, DigitsOf;
    CountInRange(n, 64);
    CountFromRight(n, PowersOf10In64(), 20);
    if n < WORD32 {
      CountInRange(n, 32);
      CountFromRight(n, PowersOf10In32(), 10);
    }
  }

  // ----- Writing two digits at a time -----

  /** DIGITS, the numbers from 00 to 99, in rows of ten. */
  function Row(t: nat): (row: string)
    ensures |row| == 20
  {
    if t == 0 then "00010203040506070809"
    else if t == 1 then "10111213141516171819"
    else if t == 2 then "20212223242526272829"
    else if t == 3 then "30313233343536373839"
    else if t == 4 then "40414243444546474849"
    else if t == 5 then "50515253545556575859"
    else if t == 6 then "60616263646566676869"
    else if t == 7 then "70717273747576777879"
    else if t == 8 then "80818283848586878889"
    else "90919293949596979899"
  }

  /** DIGITS[i] */
  function DigitAt00(i: nat): char
    requires i < 200
  {
    Row(i / 20)[i % 20]
  }

  predicate Shows(c: char, d: nat) { c as int == '0' as int + d }

  /** Entry k of row t. */
  predicate Entry(row: string, t: nat, k: nat) {
    k < 10 && |row| == 20 && Shows(row[2 * k], t) && Shows(row[2 * k + 1], k)
  }

  lemma LowRows(t: nat, k: nat)
    requires t < 5 && k < 10
    ensures Entry(Row(t), t, k)
  {
    if k < 5 {
      if k == 0 {} else if k == 1 {} else if k == 2 {} else if k == 3 {} else {}
    } else {
      if k == 5 {} else if k == 6 {} else if k == 7 {} else if k == 8 {} else {}
    }
  }

  lemma HighRows(t: nat, k: nat)
    requires 5 <= t < 10 && k < 10
    ensures Entry(Row(t), t, k)
  {
    if k < 5 {
      if k == 0 {} else if k == 1 {} else if k == 2 {} else if k == 3 {} else {}
    } else {
      if k == 5 {} else if k == 6 {} else if k == 7 {} else if k == 8 {} else {}
    }
  }

  lemma TableRight(i: nat)
    requires i < 100
    ensures Shows(DigitAt00(2 * i), i / 10) && Shows(DigitAt00(2 * i + 1), i % 10)
  {
    var t, k := i / 10, i % 10;
    if t < 5 { LowRows(t, k); } else { HighRows(t, k); }
    hide Row;
    assert i == 10 * t + k;
    assert 2 * i / 20 == t && 2 * i % 20 == 2 * k && (2 * i + 1) / 20 == t && (2 * i + 1) % 20 == 2 * k + 1;
  }

  /** Two entries of the table are the last two digits. */
  lemma TwoDigits(v: nat)
    requires v >= 10
    ensures DigitsOf(v) == if v < 100 then Pair(v) else DigitsOf(v / 100) + Pair(v % 100)
    ensures CountOf(v) == if v < 100 then 2 else CountOf(v / 100) + 2
  {
    hide DigitsOf, CountOf, Pair;
    LastTwo(v);
    PairShows(v % 100);
    LastOfHundred(v);
  }

  lemma LastOfHundred(v: nat)
    ensures v / 10 % 10 == v % 100 / 10 && v % 10 == v % 100 % 10
  {
    var a, b := v / 100, v % 100;
    assert v == 100 * a + b;
    assert v / 10 == 10 * a + b / 10;
  }

  lemma LastTwo(v: nat)
    requires v >= 10
    ensures var d := ['0' + (v / 10 % 10) as char, '0' + (v % 10) as char];
      DigitsOf(v) == if v < 100 then d else DigitsOf(v / 100) + d
    ensures CountOf(v) == if v < 100 then 2 else CountOf(v / 100) + 2
  {
    assert v / 10 / 10 == v / 100;
    if v < 100 {
      assert DigitsOf(v / 10) == ['0' + (v / 10) as char];
    } else {
      assert DigitsOf(v / 10) == DigitsOf(v / 100) + ['0' + (v / 10 % 10) as char];
    }
  }

  lemma PairShows(v: nat)
    requires v < 100
    ensures Pair(v) == ['0' + (v / 10) as char, '0' + (v % 10) as char]
  {
    hide DigitAt00;
    TableRight(v);
  }

  lemma OneDigit(v: nat)
    requires v < 10
    ensures CountOf(v) == 1 && DigitsOf(v) == ['0' + v as char]
  {}

  function Pair(v: nat): (d: string)
    requires v < 100
    ensures |d| == 2
  {
    [DigitAt00(2 * v), DigitAt00(2 * v + 1)]
  }

  /** Writes the two digits of v, the second one first. */
  method WritePair(buffer: array<char>, at: nat, v: nat)
    requires v < 100 && at + 2 <= buffer.Length
    modifies buffer
    ensures buffer[at] == Pair(v)[0] && buffer[at + 1] == Pair(v)[1]
    ensures buffer[..at] == old(buffer[..at]) && buffer[at + 2..] == old(buffer[at + 2..])
  {
    hide DigitAt00;
    var index := v * 2;
    buffer[at + 1] := DigitAt00(index + 1);
    buffer[at] := DigitAt00(index);
  }

  lemma PairIn(buffer: seq<char>, before: seq<char>, at: nat, end: nat, p: string)
    requires at + 2 <= end <= |buffer| == |before| && |p| == 2 && buffer[at] == p[0] && buffer[at + 1] == p[1]
    requires buffer[at + 2..] == before[at + 2..]
    ensures buffer[at..end] == p + before[at + 2..end] && buffer[end..] == before[end..]
  {
    assert forall k :: at + 2 <= k < |buffer| ==> buffer[k] == buffer[at + 2..][k - at - 2];
    assert forall k :: at + 2 <= k < |buffer| ==> before[k] == before[at + 2..][k - at - 2];
  }

  /** format_decimal: fills exactly the cells that count_digits has counted. */
  method FormatDecimal(buffer: array<char>, start: nat, value: nat, numDigits: nat)
    requires numDigits == CountOf(value) && start + numDigits <= buffer.Length
    modifies buffer
    ensures buffer[start..start + numDigits] == DigitsOf(value)
    ensures buffer[..start] == old(buffer[..start])
    ensures buffer[start + numDigits..] == old(buffer[start + numDigits..])
  {
    hide DigitAt00, DigitsOf, CountOf, Pair;
    var v, n: nat := value, numDigits - 1;
    ghost var end := start + numDigits;
    assert DigitsOf(v) + [] == DigitsOf(v);
    while v >= 100
      invariant n + 1 == CountOf(v) <= numDigits
      invariant DigitsOf(value) == DigitsOf(v) + buffer[start + n + 1..end]
      invariant buffer[..start] == old(buffer[..start]) && buffer[end..] == old(buffer[end..])
    {
      TwoDigits(v);
      ghost var was := buffer[..];
      var low := v % 100;
      Associate(DigitsOf(v / 100), Pair(low), buffer[start + n + 1..end]);
      v := v / 100;
      WritePair(buffer, start + n - 1, low);
      PairIn(buffer[..], was, start + n - 1, end, Pair(low));
      n := n - 2;
      Kept(buffer[..], was, start + n + 1, start);
    }
    if v < 10 {
      OneDigit(v);
      buffer[start] := '0' + v as char;
      assert buffer[start..end] == [buffer[start]] + buffer[start + 1..end];
    } else {
      TwoDigits(v);
      ghost var was := buffer[..];
      WritePair(buffer, start, v);
      PairIn(buffer[..], was, start, end, Pair(v));
    }
  }

  lemma Kept(buffer: seq<char>, before: seq<char>, at: nat, start: nat)
    requires start <= at <= |buffer| == |before| && buffer[..at] == before[..at]
    ensures buffer[..start] == before[..start]
  {
    assert buffer[..start] == buffer[..at][..start] && before[..start] == before[..at][..start];
  }

  // ----- FormatInt -----

  lemma AtMostTwenty(n: nat)
    requires n < WORD64
    ensures CountOf(n) <= 20
  {
    CountMeans(n);
    TablesRight();
    PowGrows(10, 20, CountOf(n) - 1);
    assert Pow(10, 20) == 10 * Pow(10, 19) && PowersOf10In64()[19] == Pow(10, 19);
  }

  /** 0 - value, on an unsigned type */
  function Negated(value: nat): nat
    requires value < WORD64
  {
    (WORD64 - value) % WORD64
  }

  /** static_cast of a signed value to the unsigned type */
  function Unsigned(value: int): nat
    requires -HALF64 <= value < HALF64
  {
    if value < 0 then value + WORD64 else value
  }

  class FormatInt {
    /** BUFFER_SIZE is digits10 + 3, 19 + 3 for 64 bits. */
    const buffer: array<char>
    var str: nat

    ghost predicate Valid()
      reads this, buffer
    {
      buffer.Length == 22 && str <= 21
    }

    ghost function Text(): string
      reads this, buffer
      requires Valid()
    {
      buffer[str..21]
    }

    constructor FromUnsigned(value: nat)
      requires value < WORD64
      ensures Valid() && Text() == Decimal(value)
    {
      buffer := new char[22](_ => ' ');
      str := 21;
      new;
      AtMostTwenty(value);
      FormatReverse(value);
    }

    /** FormatSigned */
    constructor (value: int)
      requires -HALF64 <= value < HALF64
      ensures Valid() && Text() == Decimal(value)
    {
      buffer := new char[22](_ => ' ');
      str := 21;
      new;
      hide DigitsOf, CountOf;
      var absValue := Unsigned(value);
      if value < 0 { absValue := Negated(absValue); }
      AtMostTwenty(absValue);
      FormatReverse(absValue);
      if value < 0 { Sign(); }
    }

    /** Puts a minus in front. */
    method Sign()
      requires buffer.Length == 22 && 1 <= str <= 21
      modifies this, buffer
      ensures str == old(str) - 1 && buffer[str..21] == "-" + old(buffer[str..21])
    {
      str := str - 1;
      buffer[str] := '-';
      assert buffer[str..21] == "-" + buffer[str + 1..21];
    }

    /** Its own format_decimal, which writes from the end of the buffer towards its beginning. */
    method FormatReverse(value: nat)
      requires buffer.Length == 22 && CountOf(value) <= 20
      modifies this, buffer
      ensures 1 <= str == 21 - CountOf(value) && buffer[str..21] == DigitsOf(value)
    {
      hide DigitAt00, DigitsOf, CountOf, Pair;
      var v, end: nat := value, 21;
      assert DigitsOf(v) + [] == DigitsOf(v);
      while v >= 100
        invariant end == 21 - CountOf(value) + CountOf(v) <= 21
        invariant DigitsOf(value) == DigitsOf(v) + buffer[end..21]
      {
        TwoDigits(v);
        ghost var was := buffer[..];
        var low := v % 100;
        Associate(DigitsOf(v / 100), Pair(low), buffer[end..21]);
        v := v / 100;
        WritePair(buffer, end - 2, low);
        PairIn(buffer[..], was, end - 2, 21, Pair(low));
        end := end - 2;
      }
      if v < 10 {
        OneDigit(v);
        buffer[end - 1] := '0' + v as char;
        end := end - 1;
        assert buffer[end..21] == [buffer[end]] + buffer[end + 1..21];
      } else {
        TwoDigits(v);
        ghost var was := buffer[..];
        WritePair(buffer, end - 2, v);
        PairIn(buffer[..], was, end - 2, 21, Pair(v));
        end := end - 2;
      }
      str := end;
    }

    method Size() returns (n: nat)
      requires Valid()
      ensures n == |Text()|
    {
      n := 21 - str;
    }
  }

  /** The number that the text of a signed value stands for. */
  function SignedValue(text: string): int
    requires text != []
  {
    if text[0] == '-' then -DigitsValue(text[1..]) else DigitsValue(text)
  }

  /** What is written reads back as the same number, the least one too. */
  lemma ReadsBack(n: int)
    ensures SignedValue(Decimal(n)) == n
  {
    DigitsRead(if n < 0 then -n else n);
    if n < 0 { assert Decimal(n)[1..] == DigitsOf(-n); } else { assert IsDigit(DigitsOf(n)[0]); }
  }

  // ----- Reading -----

  datatype Parsed = Number(value: int) | TooBig

  /** The unsigned arithmetic of parse_nonnegative_int, which takes a smaller value for the only sign of a wrap. */
  function Accumulate(value: nat, t: string): nat
    requires Digits(t)
    decreases t
  {
    if t == [] then value
    else
      var next := (value * 10 + (t[0] as int - '0' as int)) % WORD32;
      if next < value then WORD32 - 1 else Accumulate(next, t[1..])
  }

  function Judged(value: nat): Parsed { if value > INT_MAX then TooBig else Number(value) }

  predicate DigitAt(s: string, i: nat) { i < |s| && IsDigit(s[i]) }

  /** The end of the digits from i on. */
  function DigitsEnd(s: string, i: nat): (e: nat)
    ensures i <= e && (i <= |s| ==> e <= |s|) && !DigitAt(s, e) && forall j :: i <= j < e ==> DigitAt(s, j)
    decreases if i < |s| then |s| - i else 0
  {
    if DigitAt(s, i) then DigitsEnd(s, i + 1) else i
  }

  lemma DigitsFrom(s: string, i: nat)
    requires i <= |s|
    ensures Digits(s[i..DigitsEnd(s, i)])
  {
    var t := s[i..DigitsEnd(s, i)];
    forall j | 0 <= j < |t| ensures IsDigit(t[j]) { assert DigitAt(s, i + j); }
  }

  method ParseNonnegativeInt(s: string, i: nat) returns (r: Parsed, at: nat)
    requires DigitAt(s, i)
    ensures Digits(s[i..DigitsEnd(s, i)]) && r == Judged(Accumulate(0, s[i..DigitsEnd(s, i)]))
    ensures r.Number? ==> at == DigitsEnd(s, i)
  {
    DigitsFrom(s, i);
    var value: nat := 0;
    at := i;
    ghost var e := DigitsEnd(s, i);
    var more := true;
    while more
      invariant i <= at <= e <= |s| && e == DigitsEnd(s, at) && (more ==> DigitAt(s, at))
      invariant Digits(s[at..e]) && Digits(s[i..e]) && Accumulate(0, s[i..e]) == Accumulate(value, s[at..e])
      invariant !more ==> at == e
      decreases e - at
    {
      assert s[at..e][1..] == s[at + 1..e] && s[at..e][0] == s[at];
      DigitsFrom(s, at + 1);
      var newValue := (value * 10 + (s[at] as int - '0' as int)) % WORD32;
      at := at + 1;
      if newValue < value {
        value := WORD32 - 1;
        break;
      }
      value := newValue;
      more := DigitAt(s, at);
    }
    r := Judged(value);
  }

  /** What the first i digits leave of the number on 32 bits. */
  function Wrapped(t: string, i: nat): nat
    requires i <= |t|
  {
    DigitsValue(t[..i]) % WORD32
  }

  /** The wrapped value never goes down, so that no wrap shows. */
  ghost predicate NoDrop(t: string) {
    forall i {:trigger Wrapped(t, i)} :: 0 <= i < |t| ==> Wrapped(t, i) <= Wrapped(t, i + 1)
  }

  lemma {:induction false} ValueNonNegative(t: string)
    requires Digits(t)
    ensures DigitsValue(t) >= 0
  {
    if t != [] { ValueNonNegative(t[..|t| - 1]); }
  }

  lemma WrappedNext(t: string, i: nat)
    requires Digits(t) && i < |t|
    ensures Wrapped(t, i + 1) == (Wrapped(t, i) * 10 + (t[i] as int - '0' as int)) % WORD32
  {
    assert t[..i + 1][..i] == t[..i] && t[..i + 1][i] == t[i];
    WrapStep(DigitsValue(t[..i]), t[i] as int - '0' as int);
  }

  lemma WrapStep(a: int, d: int)
    ensures (10 * a + d) % WORD32 == (a % WORD32 * 10 + d) % WORD32
  {
    var q, r := a / WORD32, a % WORD32;
    assert 10 * a + d == (r * 10 + d) + 10 * q * WORD32;
    WholeWraps(r * 10 + d, 10 * q);
  }

  lemma WholeWraps(x: int, k: int)
    ensures (x + k * WORD32) % WORD32 == x % WORD32
  {}

  /** The loop goes through the wrapped values, up to the first drop. */
  lemma {:induction false} AccumulateFrom(t: string, i: nat)
    requires Digits(t) && i <= |t|
    ensures (forall j {:trigger Wrapped(t, j)} :: i <= j < |t| ==> Wrapped(t, j) <= Wrapped(t, j + 1)) ==>
      Accumulate(Wrapped(t, i), t[i..]) == Wrapped(t, |t|)
    ensures !(forall j {:trigger Wrapped(t, j)} :: i <= j < |t| ==> Wrapped(t, j) <= Wrapped(t, j + 1)) ==>
      Accumulate(Wrapped(t, i), t[i..]) == WORD32 - 1
    decreases |t| - i
  {
    if i < |t| {
      WrappedNext(t, i);
      assert t[i..][1..] == t[i + 1..] && t[i..][0] == t[i];
      AccumulateFrom(t, i + 1);
    }
  }

  lemma AccumulateAll(t: string)
    requires Digits(t)
    ensures Accumulate(0, t) == if NoDrop(t) then DigitsValue(t) % WORD32 else WORD32 - 1
  {
    hide Accumulate, DigitsValue, Wrapped;
    assert t[0..] == t;
    WholeText(t);
    AccumulateFrom(t, 0);
  }

  lemma WholeText(t: string)
    ensures Wrapped(t, 0) == 0 && Wrapped(t, |t|) == DigitsValue(t) % WORD32
  {
    assert t[..|t|] == t && t[..0] == [];
  }

  /** What reading the digits should give. */
  function Meant(t: string): Parsed { if DigitsValue(t) > INT_MAX then TooBig else Number(DigitsValue(t)) }

  lemma {:induction false} SmallNoDrop(t: string)
    requires Digits(t) && DigitsValue(t) <= INT_MAX
    ensures NoDrop(t) && Wrapped(t, |t|) == DigitsValue(t)
  {
    ValueNonNegative(t);
    assert t[..|t|] == t;
    forall i | 0 <= i < |t| ensures Wrapped(t, i) <= Wrapped(t, i + 1) {
      PrefixSmaller(t, i, i + 1);
      PrefixSmaller(t, i + 1, |t|);
    }
  }

  lemma {:induction false} PrefixSmaller(t: string, i: nat, j: nat)
    requires Digits(t) && i <= j <= |t|
    ensures 0 <= DigitsValue(t[..i]) <= DigitsValue(t[..j])
    decreases j - i
  {
    ValueNonNegative(t[..i]);
    if i < j {
      PrefixSmaller(t, i, j - 1);
      assert t[..j][..j - 1] == t[..j - 1] && t[..j][j - 1] == t[j - 1];
    }
  }

  /** parse_nonnegative_int gives the number, or the error if it is beyond INT_MAX, exactly if it is not the case that
      the number is too big, is small again on 32 bits, and never went down on the way there. */
  lemma ParsesExactly(t: string)
    requires Digits(t)
    ensures Judged(Accumulate(0, t)) == Meant(t)
      <==> !(DigitsValue(t) > INT_MAX && Wrapped(t, |t|) <= INT_MAX && NoDrop(t))
  {
    hide Accumulate, NoDrop;
    assert t[..|t|] == t;
    ValueNonNegative(t);
    AccumulateAll(t);
    if DigitsValue(t) <= INT_MAX { SmallNoDrop(t); }
  }

  /** Every number up to INT_MAX is read back. */
  lemma ParsesWritten(n: nat)
    requires n <= INT_MAX
    ensures Digits(DigitsOf(n)) && Judged(Accumulate(0, DigitsOf(n))) == Number(n)
  {
    DigitsRead(n);
    ParsesExactly(DigitsOf(n));
  }

  function Nines(k: nat): string { seq(k, _ => '9') }

  lemma {:induction false} NinesValue(k: nat)
    ensures Digits(Nines(k)) && DigitsValue(Nines(k)) == Pow(10, k) - 1
  {
    if k > 0 {
      NinesValue(k - 1);
      assert Nines(k)[..k - 1] == Nines(k - 1);
    }
  }

  /** Ten nines are beyond INT_MAX, and are read as 1410065407. */
  lemma TenNinesMisread()
    ensures Digits(Nines(10)) && DigitsValue(Nines(10)) == 9999999999
    ensures Judged(Accumulate(0, Nines(10))) == Number(1410065407) != Meant(Nines(10))
  {
    NinesValue(10);
    assert PowersOf10In64()[10] == 10000000000 == Pow(10, 10) by { TenthPower(); }
    hide Pow, Accumulate, DigitsValue, PowersOf10In64, Nines;
    NinesAccumulate();
  }

  lemma TenthPower()
    ensures PowersOf10In64()[10] == 10000000000 == Pow(10, 10)
  {
    TablesRight();
    hide Pow;
  }

  lemma NinesAccumulate()
    requires |Nines(10)| == 10 && Digits(Nines(10)) && DigitsValue(Nines(10)) == 9999999999
    ensures Accumulate(0, Nines(10)) == 1410065407
  {
    NinesNoDrop();
    hide Nines, NoDrop, Accumulate;
    AccumulateAll(Nines(10));
  }

  lemma NinesNoDrop()
    ensures NoDrop(Nines(10))
  {
    hide DigitsValue;
    forall i | 0 <= i < 10 ensures Wrapped(Nines(10), i) <= Wrapped(Nines(10), i + 1) { NinesRise(i); }
  }

  lemma NinesRise(i: nat)
    requires i < 10
    ensures Wrapped(Nines(10), i) <= Wrapped(Nines(10), i + 1)
  {
    hide Pow, DigitsValue, PowersOf10In64;
    NinesWrapped(i);
    NinesWrapped(i + 1);
    NinesPower(i);
  }

  lemma NinesWrapped(i: nat)
    requires i <= 10
    ensures Wrapped(Nines(10), i) == (Pow(10, i) - 1) % WORD32
  {
    NinesValue(i);
    hide DigitsValue, Pow;
    assert Nines(10)[..i] == Nines(i);
  }

  lemma NinesPower(i: nat)
    requires i < 10
    ensures (Pow(10, i) - 1) % WORD32 <= (Pow(10, i + 1) - 1) % WORD32
  {
    TablesRight();
    var p := PowersOf10In64();
    assert Pow(10, i + 1) == p[i + 1] && (i > 0 ==> Pow(10, i) == p[i]) && Pow(10, 0) == 1;
    hide Pow;
    if i == 9 {
      assert p[10] == 10000000000 && p[9] == 1000000000;
    } else {
      NinthPower(i + 1);
    }
  }

  lemma NinthPower(i: nat)
    requires i < 10
    ensures PowersOf10In64()[i] <= 1000000000 && (i > 1 ==> PowersOf10In64()[i] == 10 * PowersOf10In64()[i - 1])
  {}
}
