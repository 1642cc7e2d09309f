/** ceilToPow2 of readerwriterqueue.h (and ceil_to_pow_2 of concurrentqueue.h): the bit trick that copies the
    highest set bit of a 64-bit word into all lower ones, and why it finds the least power of two. */
module PowerOfTwo {
  import opened CircularIndex
  import opened Prelude

  /** The bits of a word, lowest first. */
  type Bits = b: seq<bool> | |b| == 64 witness seq(64, _ => false)

  function Value(b: seq<bool>): nat {
    if b == [] then 0 else (if b[0] then 1 else 0) + 2 * Value(b[1..])
  }

  function BitsOf(x: nat, n: nat): (b: seq<bool>)
    ensures |b| == n
  {
    if n == 0 then [] else [x % 2 == 1] + BitsOf(x / 2, n - 1)
  }

  /** x |= x >> s */
  function Smear(x: Bits, s: nat): Bits {
    seq(64, i requires 0 <= i < 64 => x[i] || (i + s < 64 && x[i + s]))
  }

  /** The shifts by 1, 2, 4, and, in the loop over the bytes of a word, by 8, 16 and 32. */
  function SmearAll(x: Bits): Bits {
    Smear(Smear(Smear(Smear(Smear(Smear(x, 1), 2), 4), 8), 16), 32)
  }

  /** --x; the smearing; ++x, on unsigned 64-bit words. */
  function CeilToPow2(x: nat): nat {
    AllOnesBelow((x - 1) % WORD64) % WORD64
  }

  /** One more than the number that has ones where y has its highest set bit and everywhere below. */
  function AllOnesBelow(y: nat): nat { Value(SmearAll(BitsOf(y, 64))) + 1 }

  // ----- Numbers and bits -----

  lemma {:induction false} ValueOfBits(x: nat, n: nat)
    requires x < Pow2(n)
    ensures Value(BitsOf(x, n)) == x
  {
    if n > 0 {
      ValueOfBits(x / 2, n - 1);
      assert BitsOf(x, n)[1..] == BitsOf(x / 2, n - 1);
    }
  }

  /** The highest set bit says between which powers of two a number is. */
  lemma {:induction false} HighestBit(b: seq<bool>, n: nat)
    requires n <= |b| && (n > 0 ==> b[n - 1]) && forall i :: n <= i < |b| ==> !b[i]
    ensures Value(b) < Pow2(n) && (n > 0 ==> Pow2(n - 1) <= Value(b))
  {
    if b != [] {
      assert forall i :: 0 <= i < |b[1..]| ==> b[1..][i] == b[i + 1];
      HighestBit(b[1..], if n == 0 then 0 else n - 1);
    }
  }

  lemma {:induction false} Ones(b: seq<bool>, n: nat)
    requires n <= |b| && forall i :: 0 <= i < |b| ==> b[i] == (i < n)
    ensures Value(b) == Pow2(n) - 1
  {
    if b != [] {
      assert forall i :: 0 <= i < |b[1..]| ==> b[1..][i] == b[i + 1];
      Ones(b[1..], if n == 0 then 0 else n - 1);
    }
  }

  lemma {:induction false} Highest(b: seq<bool>) returns (n: nat)
    ensures n <= |b| && (n > 0 ==> b[n - 1]) && forall i :: n <= i < |b| ==> !b[i]
  {
    if b == [] || b[|b| - 1] { n := |b|; } else { n := Highest(b[..|b| - 1]); }
  }

  // ----- Smearing -----

  /** Bit i of y says whether one of the w bits of x from i on is set. */
  ghost predicate Covers(x: Bits, y: Bits, w: nat) {
    && (forall i, j :: 0 <= i <= j < 64 && j < i + w && x[j] ==> y[i])
    && (forall i :: 0 <= i < 64 && y[i] ==> SetWithin(x, i, w))
  }

  ghost predicate SetWithin(x: Bits, i: nat, w: nat) { exists j :: i <= j < 64 && j < i + w && x[j] }

  lemma CoversDoubled(x: Bits, y: Bits, w: nat)
    requires Covers(x, y, w)
    ensures Covers(x, Smear(y, w), 2 * w)
  {
    var z := Smear(y, w);
    forall i, j | 0 <= i <= j < 64 && j < i + 2 * w && x[j] ensures z[i] {
      if j >= i + w { assert y[i + w]; }
    }
    forall i | 0 <= i < 64 && z[i] ensures SetWithin(x, i, 2 * w) {
      if y[i] {
        var j :| i <= j < 64 && j < i + w && x[j];
      } else {
        assert SetWithin(x, i + w, w);
        var j :| i + w <= j < 64 && j < i + w + w && x[j];
      }
    }
  }

  lemma SmearCovers(x: Bits)
    ensures Covers(x, SmearAll(x), 64)
  {
    assert Covers(x, x, 1);
    CoversDoubled(x, x, 1);
    var x1 := Smear(x, 1);
    CoversDoubled(x, x1, 2);
    var x2 := Smear(x1, 2);
    CoversDoubled(x, x2, 4);
    var x3 := Smear(x2, 4);
    CoversDoubled(x, x3, 8);
    var x4 := Smear(x3, 8);
    CoversDoubled(x, x4, 16);
    CoversDoubled(x, Smear(x4, 16), 32);
  }

  /** All bits below the highest are set. */
  lemma SmearedOnes(x: Bits, n: nat)
    requires n <= 64 && (n > 0 ==> x[n - 1]) && forall i :: n <= i < 64 ==> !x[i]
    ensures Value(SmearAll(x)) == Pow2(n) - 1
  {
    SmearCovers(x);
    var z := SmearAll(x);
    forall i | 0 <= i < 64 ensures z[i] == (i < n) {
      if i < n { assert x[n - 1] && n - 1 < i + 64; }
      if z[i] { assert SetWithin(x, i, 64); }
    }
    Ones(z, n);
  }

  lemma WordIsPower()
    ensures Pow2(64) == WORD64 && Pow2(63) == HALF64
  {
    RangeIsPower();
  }

  /** The smallest power of two not below x, where 2^e is it. */
  ghost predicate LeastPower(x: nat, e: nat) { x <= Pow2(e) && (e > 0 ==> Pow2(e - 1) < x) }

  /** Smearing y gives all ones up to its highest set bit. */
  lemma Smeared(y: nat) returns (e: nat)
    requires y < WORD64
    ensures e <= 64 && y < Pow2(e) && (e > 0 ==> Pow2(e - 1) <= y)
    ensures AllOnesBelow(y) == Pow2(e)
  {
    WordIsPower();
    var b := BitsOf(y, 64);
    ValueOfBits(y, 64);
    e := Highest(b);
    HighestBit(b, e);
    SmearedOnes(b, e);
  }

  lemma AtMost63(e: nat, y: nat)
    requires e <= 64 && y < HALF64 && (e > 0 ==> Pow2(e - 1) <= y)
    ensures e <= 63 && Pow2(e) % WORD64 == Pow2(e)
  {
    WordIsPower();
    if e == 64 { assert false; }
    PowGrows(e, 63);
  }

  lemma Exactly64(e: nat, y: nat)
    requires e <= 64 && y >= HALF64 && y < Pow2(e)
    ensures Pow2(e) == WORD64
  {
    WordIsPower();
    if e < 64 { PowGrows(e, 63); }
  }

  /** For every x from 1 to 2^63 the result is the least power of two that is not below x. */
  lemma CeilIsLeast(x: nat) returns (e: nat)
    requires 1 <= x <= HALF64
    ensures e <= 63 && LeastPower(x, e) && CeilToPow2(x) == Pow2(e)
  {
    var y := (x - 1) % WORD64;
    assert y == x - 1;
    e := Smeared(y);
    AtMost63(e, y);
  }

  /** For 0 and for x above 2^63 there is no such word: the result wraps to 0. */
  lemma CeilWraps(x: nat)
    requires x == 0 || HALF64 < x < WORD64
    ensures CeilToPow2(x) == 0
  {
    var y := (x - 1) % WORD64;
    assert HALF64 <= y < WORD64;
    var e := Smeared(y);
    Exactly64(e, y);
  }
}
