/** When the comparison operators of json.hpp keep the laws that sorting and searching rely on: the exact conditions,
    and values for which they fail. */
module JsonLaws {
  import opened JsonNumbers
  import opened JsonOrder

  /** The value with an integer for every floating-point number. */
  function Integral(v: Value): (w: Value)
    ensures FloatFree(w)
    decreases v
  {
    match v
    case Float(r) => Int(Truncate(r))
    case Arr(elems) => Arr(IntegralElems(elems))
    case Obj(members) => Obj(IntegralMembers(members))
    case _ => v
  }

  function IntegralElems(a: seq<Value>): (b: seq<Value>)
    ensures ElemsFloatFree(b) && |b| == |a|
    decreases a
  {
    if a == [] then [] else [Integral(a[0])] + IntegralElems(a[1..])
  }

  function IntegralMembers(a: seq<Member>): (b: seq<Member>)
    ensures MembersFloatFree(b) && |b| == |a|
    decreases a
  {
    if a == [] then [] else [Member(a[0].key, Integral(a[0].value))] + IntegralMembers(a[1..])
  }

  // ----- Values that are not tame -----

  /** Every floating-point number in the value is whole. */
  predicate AllWhole(v: Value)
    decreases v
  {
    match v
    case Float(r) => Whole(r)
    case Arr(elems) => ElemsWhole(elems)
    case Obj(members) => MembersWhole(members)
    case _ => true
  }

  predicate ElemsWhole(a: seq<Value>)
    decreases a
  {
    a == [] || (AllWhole(a[0]) && ElemsWhole(a[1..]))
  }

  predicate MembersWhole(a: seq<Member>)
    decreases a
  {
    a == [] || (AllWhole(a[0].value) && MembersWhole(a[1..]))
  }

  /** An integer compares equal to the fraction it is the integral part of, but not the other way round. */
  lemma {:induction false} FractionAsymmetric(v: Value)
    requires Storable(v)
    ensures Storable(Integral(v)) && Equal(Integral(v), v) && (!AllWhole(v) ==> !Equal(v, Integral(v)))
    decreases v, 1
  {
    match v
    case Float(r) =>
      if !Whole(r) { FractionLost(r); }
    case Arr(elems) => FractionElems(elems);
    case Obj(members) => FractionMembers(members);
    case _ =>
  }

  lemma {:induction false} FractionElems(a: seq<Value>)
    requires ElemsStorable(a)
    ensures ElemsStorable(IntegralElems(a)) && AllEqual(IntegralElems(a), a)
    ensures !ElemsWhole(a) ==> !AllEqual(a, IntegralElems(a))
    decreases a, 0
  {
    if a != [] {
      FractionAsymmetric(a[0]);
      FractionElems(a[1..]);
      assert IntegralElems(a)[1..] == IntegralElems(a[1..]);
    }
  }

  lemma {:induction false} FractionMembers(a: seq<Member>)
    requires MembersStorable(a)
    ensures MembersStorable(IntegralMembers(a)) && AllMembersEqual(IntegralMembers(a), a)
    ensures !MembersWhole(a) ==> !AllMembersEqual(a, IntegralMembers(a))
    decreases a, 0
  {
    if a != [] {
      FractionAsymmetric(a[0].value);
      FractionMembers(a[1..]);
      assert IntegralMembers(a)[1..] == IntegralMembers(a[1..]);
    }
  }

  /** The value with a neighbouring integer for every unsettled number. */
  function Beside(v: Value): (w: Value)
    ensures FloatFree(w)
    decreases v
  {
    match v
    case Float(r) => Int(if Settled(r) then Truncate(r) else Neighbour(r))
    case Arr(elems) => Arr(BesideElems(elems))
    case Obj(members) => Obj(BesideMembers(members))
    case _ => v
  }

  function BesideElems(a: seq<Value>): (b: seq<Value>)
    ensures ElemsFloatFree(b) && |b| == |a|
    decreases a
  {
    if a == [] then [] else [Beside(a[0])] + BesideElems(a[1..])
  }

  function BesideMembers(a: seq<Member>): (b: seq<Member>)
    ensures MembersFloatFree(b) && |b| == |a|
    decreases a
  {
    if a == [] then [] else [Member(a[0].key, Beside(a[0].value))] + BesideMembers(a[1..])
  }

  /** A large number compares equal to an integer that is rounded to it, but not the other way round. */
  lemma {:induction false} LargeAsymmetric(v: Value)
    requires Storable(v) && AllWhole(v)
    ensures Storable(Beside(v)) && Equal(v, Beside(v)) && (!Tame(v) ==> !Equal(Beside(v), v))
    decreases v, 1
  {
    match v
    case Float(r) =>
      if Settled(r) { SettledCompares(Truncate(r), r); } else { NeighbourRounds(r); }
    case Arr(elems) => LargeElems(elems);
    case Obj(members) => LargeMembers(members);
    case _ =>
  }

  lemma {:induction false} LargeElems(a: seq<Value>)
    requires ElemsStorable(a) && ElemsWhole(a)
    ensures ElemsStorable(BesideElems(a)) && AllEqual(a, BesideElems(a))
    ensures (!ElemsTame(a) ==> !AllEqual(BesideElems(a), a))
    decreases a, 0
  {
    if a != [] {
      LargeAsymmetric(a[0]);
      LargeElems(a[1..]);
      assert BesideElems(a)[1..] == BesideElems(a[1..]);
    }
  }

  lemma {:induction false} LargeMembers(a: seq<Member>)
    requires MembersStorable(a) && MembersWhole(a)
    ensures MembersStorable(BesideMembers(a)) && AllMembersEqual(a, BesideMembers(a))
    ensures !MembersTame(a) ==> !AllMembersEqual(BesideMembers(a), a)
    decreases a, 0
  {
    if a != [] {
      LargeAsymmetric(a[0].value);
      LargeMembers(a[1..]);
      assert BesideMembers(a)[1..] == BesideMembers(a[1..]);
    }
  }

  /** v can be compared with w, a value without floating-point numbers. */
  predicate Comparable(v: Value, w: Value) { FloatFree(w) && Storable(w) ==> Lawful(v, w) }

  /** The operators keep their promise between v and all values without floating-point numbers exactly if the
      floating-point numbers in v are whole and not so large that other integers are rounded to them. */
  lemma LawfulExactlyWhenTame(v: Value)
    requires Storable(v)
    ensures (forall w :: Comparable(v, w)) <==> Tame(v)
  {
    if Tame(v) {
      forall w ensures Comparable(v, w) {
        if FloatFree(w) {
          FloatFreeTame(w);
          Trichotomy(v, w);
        }
      }
    } else if AllWhole(v) {
      LargeAsymmetric(v);
      assert !Comparable(v, Beside(v));
    } else {
      FractionAsymmetric(v);
      assert !Comparable(v, Integral(v));
    }
  }

  /** An integer equals a fraction it is the truncation of, and a double equals an integer that is rounded to it, but
      not the other way round. */
  lemma EqualNotSymmetric()
    ensures Equal(Int(1), Float(1.5)) && !Equal(Float(1.5), Int(1))
    ensures Equal(Float(EXACT as real), Int(EXACT + 1)) && !Equal(Int(EXACT + 1), Float(EXACT as real))
  {
    NearestSmall(1);
    NearestMiddle(EXACT + 1);
  }

  // ----- Weak orders -----

  /** What std::sort and std::map ask of < on the values they are given: a strict order in which being tied is
      transitive too. */
  ghost predicate WeakOrder(s: iset<Value>) {
    && (forall a :: a in s ==> !Less(a, a))
    && Transitive(s)
    && (forall a, b, c :: a in s && b in s && c in s && Tied(a, b) && Tied(b, c) ==> Tied(a, c))
  }

  ghost predicate Transitive(s: iset<Value>) {
    forall a, b, c :: a in s && b in s && c in s && Less(a, b) && Less(b, c) ==> Less(a, c)
  }

  /** All values with their floating-point numbers in place. */
  ghost const AllPlaced: iset<Value> := iset v | Storable(v) && Placed(v)

  lemma PlacedWeakOrder()
    ensures WeakOrder(AllPlaced)
  {
    forall a | a in AllPlaced ensures !Less(a, a) { TiedAreSame(a, a); }
    forall a, b, c | a in AllPlaced && b in AllPlaced && c in AllPlaced && Less(a, b) && Less(b, c) ensures Less(a, c) {
      PlacedTransitive(a, b, c);
    }
    forall a, b, c | a in AllPlaced && b in AllPlaced && c in AllPlaced && Tied(a, b) && Tied(b, c) ensures Tied(a, c) {
      TiedAreSame(a, b);
      TiedAreSame(b, c);
      TiedAreSame(a, c);
    }
  }

  /** The value with an integer that is tied with it for every number that is not in place. */
  function Low(v: Value): (w: Value)
    decreases v
  {
    match v
    case Float(r) => if InPlace(r) then v else Int(Truncate(r))
    case Arr(elems) => Arr(LowElems(elems))
    case Obj(members) => Obj(LowMembers(members))
    case _ => v
  }

  function LowElems(a: seq<Value>): (b: seq<Value>)
    ensures |b| == |a|
    decreases a
  {
    if a == [] then [] else [Low(a[0])] + LowElems(a[1..])
  }

  function LowMembers(a: seq<Member>): (b: seq<Member>)
    ensures |b| == |a|
    decreases a
  {
    if a == [] then [] else [Member(a[0].key, Low(a[0].value))] + LowMembers(a[1..])
  }

  /** The value with a number that is not tied with both it and the number in Low for every number that is not in
      place: a fraction's integral part as a double, or the next integer that is rounded to the number. */
  function Other(v: Value): (w: Value)
    decreases v
  {
    match v
    case Float(r) =>
      if InPlace(r) then v else if Whole(r) then Int(Truncate(r) + 1) else Float(Truncate(r) as real)
    case Arr(elems) => Arr(OtherElems(elems))
    case Obj(members) => Obj(OtherMembers(members))
    case _ => v
  }

  function OtherElems(a: seq<Value>): (b: seq<Value>)
    ensures |b| == |a|
    decreases a
  {
    if a == [] then [] else [Other(a[0])] + OtherElems(a[1..])
  }

  function OtherMembers(a: seq<Member>): (b: seq<Member>)
    ensures |b| == |a|
    decreases a
  {
    if a == [] then [] else [Member(a[0].key, Other(a[0].value))] + OtherMembers(a[1..])
  }

  /** Low is tied with the value, and Other is placed differently by the two, unless all its numbers are in place. */
  lemma {:induction false} Spoils(v: Value)
    requires Storable(v)
    ensures Storable(Low(v)) && Placed(Low(v)) && Storable(Other(v)) && Placed(Other(v))
    ensures Tied(Low(v), v) && !Less(Other(v), Low(v)) && !Less(v, Other(v))
    ensures if Placed(v) then Tied(v, Other(v)) && Tied(Low(v), Other(v))
            else Less(Other(v), v) || Less(Low(v), Other(v))
    decreases v, 1
  {
    match v
    case Float(r) => if !InPlace(r) { NumberSpoils(r); }
    case Arr(elems) => ElemsSpoil(elems);
    case Obj(members) => MembersSpoil(members);
    case Str(s) => StringTrichotomy(s, s);
    case _ =>
  }

  lemma NumberSpoils(r: real)
    requires Double(r) && !InPlace(r)
    ensures IsInt64(Truncate(r)) && ToDouble(Truncate(r)) <= r
    ensures Whole(r) ==> ToDouble(Truncate(r) + 1) == r && IsInt64(Truncate(r) + 1)
    ensures !Whole(r) ==> Truncate(r) as real < r && Double(Truncate(r) as real) && InPlace(Truncate(r) as real)
    ensures !Whole(r) ==> ToDouble(Truncate(r)) == Truncate(r) as real
  {
    hide RoundInt;
    if Whole(r) {
      NeighbourRounds(r);
    } else {
      SettledCompares(Truncate(r), Truncate(r) as real);
    }
  }

  lemma {:induction false} ElemsSpoil(a: seq<Value>)
    requires ElemsStorable(a)
    ensures ElemsStorable(LowElems(a)) && ElemsPlaced(LowElems(a)) && ElemsStorable(OtherElems(a))
    ensures ElemsPlaced(OtherElems(a))
    ensures !ElemsLess(LowElems(a), a) && !ElemsLess(a, LowElems(a))
    ensures !ElemsLess(OtherElems(a), LowElems(a)) && !ElemsLess(a, OtherElems(a))
    ensures if ElemsPlaced(a) then !ElemsLess(OtherElems(a), a) && !ElemsLess(LowElems(a), OtherElems(a))
            else ElemsLess(OtherElems(a), a) || ElemsLess(LowElems(a), OtherElems(a))
    decreases a, 0
  {
    if a != [] {
      Spoils(a[0]);
      ElemsSpoil(a[1..]);
      assert LowElems(a)[1..] == LowElems(a[1..]) && OtherElems(a)[1..] == OtherElems(a[1..]);
    }
  }

  lemma {:induction false} MembersSpoil(a: seq<Member>)
    requires MembersStorable(a)
    ensures MembersStorable(LowMembers(a)) && MembersPlaced(LowMembers(a))
    ensures MembersStorable(OtherMembers(a)) && MembersPlaced(OtherMembers(a))
    ensures !MembersLess(LowMembers(a), a) && !MembersLess(a, LowMembers(a))
    ensures !MembersLess(OtherMembers(a), LowMembers(a)) && !MembersLess(a, OtherMembers(a))
    ensures if MembersPlaced(a) then !MembersLess(OtherMembers(a), a) && !MembersLess(LowMembers(a), OtherMembers(a))
            else MembersLess(OtherMembers(a), a) || MembersLess(LowMembers(a), OtherMembers(a))
    decreases a, 0
  {
    if a != [] {
      Spoils(a[0].value);
      StringTrichotomy(a[0].key, a[0].key);
      MembersSpoil(a[1..]);
      assert LowMembers(a)[1..] == LowMembers(a[1..]) && OtherMembers(a)[1..] == OtherMembers(a[1..]);
    }
  }

  /** The values with all numbers in place cannot be joined by any other value: < is a weak order on them and v
      exactly if v is one of them. */
  lemma WeakOrderExactlyWhenPlaced(v: Value)
    requires Storable(v)
    ensures WeakOrder(AllPlaced + iset{v}) <==> Placed(v)
  {
    var s := AllPlaced + iset{v};
    if Placed(v) {
      PlacedWeakOrder();
      assert s == AllPlaced;
    } else {
      Spoils(v);
      assert Low(v) in s && Other(v) in s && v in s;
      if WeakOrder(s) { TiedInterchangeable(s, Low(v), v, Other(v)); }
    }
  }

  /** In a weak order, tied values are placed alike. */
  lemma TiedInterchangeable(s: iset<Value>, x: Value, v: Value, y: Value)
    requires WeakOrder(s) && x in s && v in s && y in s && Tied(x, v)
    ensures Less(y, v) ==> Less(y, x)
    ensures Less(x, y) ==> Less(v, y)
  {
    if Tied(y, x) { assert Tied(y, v); }
    if Tied(v, y) { assert Tied(x, y); }
  }

  // ----- Transitivity alone -----

  /** Values that are no containers are ordered transitively, whatever their numbers. */
  lemma NumbersTransitive(a: Value, b: Value, c: Value)
    requires Storable(a) && Storable(b) && Storable(c) && Less(a, b) && Less(b, c)
    requires (a.Float? || b.Float? || c.Float?)
    ensures Less(a, c)
  {
    hide RoundInt;
    if a.Int? && b.Float? && c.Int? {
      BelowStays(a.n, b.r);
      if c.n <= a.n { RoundMonotone(c.n, a.n); }
    } else if a.Float? && b.Int? && c.Float? {
      BelowStays(b.n, c.r);
    } else if a.Float? && b.Int? && c.Int? {
      RoundMonotone(b.n, c.n);
    }
  }

  lemma {:induction false} AppendLess(a: seq<Value>, b: seq<Value>, s: seq<Value>, t: seq<Value>)
    requires |a| == |b|
    ensures ElemsLess(a + s, b + t) <==> ElemsLess(a, b) || (!ElemsLess(b, a) && ElemsLess(s, t))
  {
    if a == [] {
      assert a + s == s && b + t == t;
    } else {
      AppendLess(a[1..], b[1..], s, t);
      assert (a + s)[1..] == a[1..] + s && (b + t)[1..] == b[1..] + t;
    }
  }

  lemma {:induction false} AppendMembersLess(a: seq<Member>, b: seq<Member>, s: seq<Member>, t: seq<Member>)
    requires |a| == |b|
    ensures MembersLess(a + s, b + t) <==> MembersLess(a, b) || (!MembersLess(b, a) && MembersLess(s, t))
  {
    if a == [] {
      assert a + s == s && b + t == t;
    } else {
      AppendMembersLess(a[1..], b[1..], s, t);
      assert (a + s)[1..] == a[1..] + s && (b + t)[1..] == b[1..] + t;
    }
  }

  lemma {:induction false} AppendElems(a: seq<Value>, b: seq<Value>)
    ensures ElemsStorable(a + b) <==> ElemsStorable(a) && ElemsStorable(b)
    ensures ElemsPlaced(a + b) <==> ElemsPlaced(a) && ElemsPlaced(b)
  {
    if a == [] {
      assert a + b == b;
    } else {
      AppendElems(a[1..], b);
      assert (a + b)[1..] == a[1..] + b;
    }
  }

  lemma {:induction false} AppendMembers(a: seq<Member>, b: seq<Member>)
    requires a != [] && b != [] && MembersStorable(a) && MembersStorable(b) && MembersPlaced(a) && MembersPlaced(b)
    requires StringLess(a[|a| - 1].key, b[0].key)
    ensures MembersStorable(a + b) && MembersPlaced(a + b)
  {
    assert (a + b)[1..] == a[1..] + b;
    if |a| == 1 {
      assert a[1..] + b == b;
    } else {
      AppendMembers(a[1..], b);
    }
  }

  /** A key that comes after s. */
  function After(s: string): (t: string)
    ensures StringLess(s, t)
  {
    LessAfter(s);
    s + "0"
  }

  lemma {:induction false} LessAfter(s: string)
    ensures StringLess(s, s + "0")
  {
    if s != [] {
      LessAfter(s[1..]);
      assert (s + "0")[1..] == s[1..] + "0";
    }
  }

  lemma {:induction false} SameKeys(a: seq<Member>)
    ensures forall i :: 0 <= i < |a| ==> LowMembers(a)[i].key == a[i].key == OtherMembers(a)[i].key
  {
    if a != [] {
      SameKeys(a[1..]);
      forall i | 0 <= i < |a| ensures LowMembers(a)[i].key == a[i].key == OtherMembers(a)[i].key {
        if i > 0 { assert a[i] == a[1..][i - 1]; }
      }
    }
  }

  /** Around an array with a number that is not in place, there are two arrays without such numbers that < does not
      order transitively with it. */
  lemma ArrayNotTransitive(elems: seq<Value>) returns (x: Value, y: Value)
    requires ElemsStorable(elems) && !ElemsPlaced(elems)
    ensures Storable(x) && Placed(x) && Storable(y) && Placed(y)
    ensures Less(Arr(elems), x) && Less(x, y) && !Less(Arr(elems), y)
  {
    var low, other := LowElems(elems), OtherElems(elems);
    ElemsSpoil(elems);
    var tail := if ElemsLess(other, elems) then [Null, Null] else [];
    AppendElems(low, [Null]);
    AppendElems(other, tail);
    assert elems + [] == elems;
    AppendLess(elems, low, [], [Null]);
    AppendLess(low, other, [Null], tail);
    AppendLess(elems, other, [], tail);
    x, y := Arr(low + [Null]), Arr(other + tail);
  }

  lemma ObjectNotTransitive(members: seq<Member>) returns (x: Value, y: Value)
    requires MembersStorable(members) && !MembersPlaced(members)
    ensures Storable(x) && Placed(x) && Storable(y) && Placed(y)
    ensures Less(Obj(members), x) && Less(x, y) && !Less(Obj(members), y)
  {
    var low, other := LowMembers(members), OtherMembers(members);
    MembersSpoil(members);
    assert members != [];
    SameKeys(members);
    var k := members[|members| - 1].key;
    Tails(k);
    var tail := if MembersLess(other, members) then Two(k) else [];
    AppendMembers(low, One(k));
    if tail == [] { assert other + tail == other; } else { AppendMembers(other, tail); }
    x, y := Obj(low + One(k)), Obj(other + tail);
    hide MembersLess, MembersStorable, MembersPlaced, StringLess, One, Two, LowMembers, OtherMembers;
    assert members + [] == members;
    AppendMembersLess(members, low, [], One(k));
    AppendMembersLess(low, other, One(k), tail);
    AppendMembersLess(members, other, [], tail);
  }

  function One(k: string): seq<Member> { [Member(After(k), Null)] }

  function Two(k: string): seq<Member> { [Member(After(k), Null), Member(After(After(k)), Null)] }

  lemma Tails(k: string)
    ensures MembersStorable(One(k)) && MembersPlaced(One(k)) && MembersStorable(Two(k)) && MembersPlaced(Two(k))
    ensures StringLess(k, One(k)[0].key) && StringLess(k, Two(k)[0].key)
    ensures MembersLess([], One(k)) && MembersLess(One(k), Two(k)) && MembersLess([], Two(k))
  {
    Tail(k);
    Tail(After(k));
    assert Two(k)[0] == One(k)[0] && Two(k)[1..] == One(After(k));
    StringTrichotomy(After(k), After(k));
    assert MembersLess(One(k)[1..], Two(k)[1..]);
  }

  lemma Tail(k: string)
    ensures One(k)[1..] == [] && MembersStorable(One(k)) && MembersPlaced(One(k)) && MembersLess([], One(k))
  {
    assert One(k)[1..] == [];
    assert MembersStorable(One(k)[1..]) && MembersPlaced(One(k)[1..]);
  }

  /** < is transitive on v and the values with all numbers in place exactly if v is one of those, or a number itself. */
  lemma TransitiveExactlyWhenPlacedOrNumber(v: Value)
    requires Storable(v)
    ensures Transitive(AllPlaced + iset{v}) <==> Placed(v) || v.Float?
  {
    var s := AllPlaced + iset{v};
    if Placed(v) {
      PlacedWeakOrder();
      assert s == AllPlaced;
    } else if v.Float? {
      forall a, b, c | a in s && b in s && c in s && Less(a, b) && Less(b, c) ensures Less(a, c) {
        if a == v || b == v || c == v { NumbersTransitive(a, b, c); } else { PlacedTransitive(a, b, c); }
      }
    } else if v.Arr? {
      var x, y := ArrayNotTransitive(v.elems);
      assert v in s && x in s && y in s;
    } else {
      var x, y := ObjectNotTransitive(v.members);
      assert v in s && x in s && y in s;
    }
  }

  /** Neither of 1 and 1.25 is less than the other, nor of 1 and 1.5, and yet 1.25 is less than 1.5; and there are three
      arrays each of which is less than the next one, all the way round. */
  lemma NoWeakOrder()
    ensures Tied(Float(1.25), Int(1)) && Tied(Int(1), Float(1.5)) && Less(Float(1.25), Float(1.5))
    ensures Less(Arr([Float(1.5), Int(0)]), Arr([Int(1), Int(1)]))
    ensures Less(Arr([Int(1), Int(1)]), Arr([Float(1.25), Int(2)]))
    ensures Less(Arr([Float(1.25), Int(2)]), Arr([Float(1.5), Int(0)]))
  {
    NearestSmall(1);
    assert [Int(1), Int(1)][1..] == [Int(1)] && [Float(1.5), Int(0)][1..] == [Int(0)];
    assert [Float(1.25), Int(2)][1..] == [Int(2)];
  }
}
