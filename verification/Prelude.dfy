/** Definitions shared by the models: options, machine words, circular slots, and sums over the threads of a machine. */
module Prelude {

  datatype Option<+T> = None | Some(value: T)

  /** The actions of a run of a machine, in the order they were taken. */
  datatype Trace<+A> = Start | Then(before: Trace<A>, last: A)

  // ----- Numbers and sequences -----

  /** 2^32, 2^64 and 2^63 */
  const WORD32: int := 0x1_0000_0000
  const WORD64: int := 0x1_0000_0000_0000_0000
  const HALF64: int := 0x8000_0000_0000_0000

  function Min(a: int, b: int): int { if a < b then a else b }

  lemma Associate<T>(a: seq<T>, b: seq<T>, c: seq<T>)
    ensures (a + b) + c == a + (b + c)
  {}

  // ----- Slots of a circular array -----

  /** (i + 1) & (size - 1), for a slot i of an array whose size is a power of two */
  function NextSlot(i: nat, size: nat): nat {
    if i + 1 == size then 0 else i + 1
  }

  /** The slot reached from slot 0 in k steps. */
  function Slot(k: nat, size: nat): (i: nat)
    requires size > 0
    ensures i < size
  {
    if k == 0 then 0 else NextSlot(Slot(k - 1, size), size)
  }

  lemma {:induction false} SlotAhead(k: nat, d: nat, size: nat)
    requires d <= size && size > 0
    ensures Slot(k + d, size) == if Slot(k, size) + d < size then Slot(k, size) + d else Slot(k, size) + d - size
  {
    if d > 0 { SlotAhead(k, d - 1, size); }
  }

  lemma SlotNext(k: nat, size: nat)
    requires size > 0
    ensures Slot(k + 1, size) == NextSlot(Slot(k, size), size)
  {}

  // ----- Sums -----

  /** The sum of a measure over a sequence; used to add up what every thread of a machine holds. */
  ghost function Sum<A>(f: A -> nat, xs: seq<A>): nat {
    if xs == [] then 0 else f(xs[0]) + Sum(f, xs[1..])
  }

  /** Changing one element changes the sum by the difference of the two measures. */
  lemma {:induction false} SumUpdate<A>(f: A -> nat, xs: seq<A>, i: nat, x: A)
    requires i < |xs|
    ensures Sum(f, xs[i := x]) == Sum(f, xs) - f(xs[i]) + f(x)
    ensures f(xs[i]) <= Sum(f, xs)
  {
    if i == 0 {
      assert xs[0 := x][1..] == xs[1..];
    } else {
      assert xs[i := x][1..] == xs[1..][i - 1 := x];
      SumUpdate(f, xs[1..], i - 1, x);
    }
  }

  /** Two different elements contribute separately. */
  lemma {:induction false} SumTwo<A>(f: A -> nat, xs: seq<A>, i: nat, j: nat)
    requires i < j < |xs|
    ensures f(xs[i]) + f(xs[j]) <= Sum(f, xs)
  {
    if i == 0 {
      SumUpdate(f, xs[1..], j - 1, xs[j]);
    } else {
      SumTwo(f, xs[1..], i - 1, j - 1);
    }
  }

  lemma {:induction false} SumZero<A>(f: A -> nat, xs: seq<A>)
    requires forall i :: 0 <= i < |xs| ==> f(xs[i]) == 0
    ensures Sum(f, xs) == 0
  {
    if xs != [] {
      assert forall i :: 0 <= i < |xs[1..]| ==> xs[1..][i] == xs[i + 1];
      SumZero(f, xs[1..]);
    }
  }

  lemma {:induction false} SumPositive<A>(f: A -> nat, xs: seq<A>) returns (i: nat)
    requires Sum(f, xs) > 0
    ensures i < |xs| && f(xs[i]) > 0
  {
    if f(xs[0]) > 0 {
      i := 0;
    } else {
      var j := SumPositive(f, xs[1..]);
      i := j + 1;
    }
  }

  /** If one measure is pointwise at most one more than another, so are the sums up to the length. */
  lemma {:induction false} SumBound<A>(f: A -> nat, g: A -> nat, xs: seq<A>)
    requires forall i :: 0 <= i < |xs| ==> f(xs[i]) <= g(xs[i]) + 1
    ensures Sum(f, xs) <= Sum(g, xs) + |xs|
  {
    if xs != [] {
      assert forall i :: 0 <= i < |xs[1..]| ==> xs[1..][i] == xs[i + 1];
      SumBound(f, g, xs[1..]);
    }
  }

  lemma {:induction false} SumAppend<A>(f: A -> nat, xs: seq<A>, ys: seq<A>)
    ensures Sum(f, xs + ys) == Sum(f, xs) + Sum(f, ys)
  {
    if xs == [] {
      assert xs + ys == ys;
    } else {
      assert (xs + ys)[1..] == xs[1..] + ys;
      SumAppend(f, xs[1..], ys);
    }
  }

  lemma {:induction false} SumMono<A>(f: A -> nat, xs: seq<A>, ys: seq<A>)
    requires |xs| == |ys| && forall i :: 0 <= i < |xs| ==> f(xs[i]) <= f(ys[i])
    ensures Sum(f, xs) <= Sum(f, ys)
  {
    if xs != [] {
      assert forall i :: 0 <= i < |xs[1..]| ==> xs[1..][i] == xs[i + 1] && ys[1..][i] == ys[i + 1];
      SumMono(f, xs[1..], ys[1..]);
    }
  }

  /** A measure that is at most one adds up to at most the length. */
  lemma {:induction false} SumAtMostLength<A>(f: A -> nat, xs: seq<A>)
    requires forall i :: 0 <= i < |xs| ==> f(xs[i]) <= 1
    ensures Sum(f, xs) <= |xs|
  {
    if xs != [] {
      assert forall i :: 0 <= i < |xs[1..]| ==> xs[1..][i] == xs[i + 1];
      SumAtMostLength(f, xs[1..]);
    }
  }

  /** xs with u at n consecutive places from lo. */
  function Mark<A>(xs: seq<A>, lo: nat, n: nat, u: A): (ys: seq<A>)
    requires lo + n <= |xs|
    ensures |ys| == |xs|
    ensures forall i :: 0 <= i < |xs| ==> ys[i] == if lo <= i < lo + n then u else xs[i]
  {
    xs[..lo] + seq(n, _ => u) + xs[lo + n..]
  }

  /** Marking n places whose measure was `was` changes the sum by n times the difference. */
  lemma {:induction false} SumMark<A>(f: A -> nat, xs: seq<A>, lo: nat, n: nat, u: A, was: nat)
    requires lo + n <= |xs| && was <= 1 && f(u) <= 1
    requires forall i :: lo <= i < lo + n ==> f(xs[i]) == was
    ensures was == f(u) ==> Sum(f, Mark(xs, lo, n, u)) == Sum(f, xs)
    ensures was < f(u) ==> Sum(f, Mark(xs, lo, n, u)) == Sum(f, xs) + n
    ensures was > f(u) ==> Sum(f, Mark(xs, lo, n, u)) == Sum(f, xs) - n
  {
    if n == 0 {
      assert Mark(xs, lo, n, u) == xs;
    } else {
      SumMark(f, xs, lo, n - 1, u, was);
      var ys := Mark(xs, lo, n - 1, u);
      assert Mark(xs, lo, n, u) == ys[lo + n - 1 := u];
      SumUpdate(f, ys, lo + n - 1, u);
    }
  }
}
