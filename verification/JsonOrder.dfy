/** JSON values and the comparison operators of json.hpp. An object is the sequence of its members in the order of
    their keys, as std::map keeps them. NaN and the infinities are no values here. */
module JsonOrder {
  import opened JsonNumbers

  datatype Value =
    | Null
    | Bool(b: bool)
    | Int(n: int)
    | Float(r: real)
    | Str(s: string)
    | Arr(elems: seq<Value>)
    | Obj(members: seq<Member>)

  datatype Member = Member(key: string, value: Value)

  datatype Kind = KNull | KObject | KArray | KString | KBoolean | KInteger | KFloat

  function KindOf(v: Value): Kind {
    match v
    case Null => KNull
    case Bool(_) => KBoolean
    case Int(_) => KInteger
    case Float(_) => KFloat
    case Str(_) => KString
    case Arr(_) => KArray
    case Obj(_) => KObject
  }

  /** operator< on the type enumeration. */
  predicate KindLess(a: Kind, b: Kind) {
    if a == b then false
    else match a
      case KNull => true
      case KBoolean => b != KNull
      case KFloat => b == KObject || b == KArray || b == KString
      case KInteger => b == KObject || b == KArray || b == KString
      case KObject => b == KArray || b == KString
      case KArray => b == KString
      case KString => false
  }

  /** std::string::operator<: lexicographic by character. */
  predicate StringLess(a: string, b: string)
    decreases a
  {
    if a == [] then b != []
    else if b == [] then false
    else a[0] < b[0] || (a[0] == b[0] && StringLess(a[1..], b[1..]))
  }

  /** operator== on values; containers compare element by element. */
  predicate Equal(a: Value, b: Value)
    decreases a
  {
    if a.Arr? && b.Arr? then AllEqual(a.elems, b.elems)
    else if a.Obj? && b.Obj? then AllMembersEqual(a.members, b.members)
    else if a.Null? && b.Null? then true
    else if a.Str? && b.Str? then a.s == b.s
    else if a.Bool? && b.Bool? then a.b == b.b
    else if a.Int? && b.Int? then a.n == b.n
    else if a.Int? && b.Float? then a.n == Truncate(b.r)
    else if a.Float? && b.Int? then a.r == ToDouble(b.n)
    else if a.Float? && b.Float? then a.r == b.r
    else false
  }

  predicate AllEqual(a: seq<Value>, b: seq<Value>)
    decreases a
  {
    |a| == |b| && (a == [] || (Equal(a[0], b[0]) && AllEqual(a[1..], b[1..])))
  }

  predicate AllMembersEqual(a: seq<Member>, b: seq<Member>)
    decreases a
  {
    |a| == |b| && (a == [] ||
      (a[0].key == b[0].key && Equal(a[0].value, b[0].value) && AllMembersEqual(a[1..], b[1..])))
  }

  // The number of values in a value: what the recursion of operator<, which compares both ways round, goes down by.

  function Size(v: Value): (n: nat)
    ensures n > 0
    decreases v
  {
    match v
    case Arr(elems) => 1 + ElemsSize(elems)
    case Obj(members) => 1 + MembersSize(members)
    case _ => 1
  }

  function ElemsSize(a: seq<Value>): nat
    decreases a
  {
    if a == [] then 0 else Size(a[0]) + ElemsSize(a[1..])
  }

  function MembersSize(a: seq<Member>): nat
    decreases a
  {
    if a == [] then 0 else Size(a[0].value) + MembersSize(a[1..])
  }

  /** operator< on values; containers compare lexicographically, members by key and then by value. */
  predicate Less(a: Value, b: Value)
    decreases Size(a) + Size(b), 0
  {
    if a.Arr? && b.Arr? then ElemsLess(a.elems, b.elems)
    else if a.Obj? && b.Obj? then MembersLess(a.members, b.members)
    else if a.Null? && b.Null? then false
    else if a.Str? && b.Str? then StringLess(a.s, b.s)
    else if a.Bool? && b.Bool? then !a.b && b.b
    else if a.Int? && b.Int? then a.n < b.n
    else if a.Int? && b.Float? then a.n < Truncate(b.r)
    else if a.Float? && b.Int? then a.r < ToDouble(b.n)
    else if a.Float? && b.Float? then a.r < b.r
    else KindLess(KindOf(a), KindOf(b))
  }

  /** std::lexicographical_compare, which only asks operator<, in both directions. */
  predicate ElemsLess(a: seq<Value>, b: seq<Value>)
    decreases ElemsSize(a) + ElemsSize(b), 1
  {
    if b == [] then false
    else if a == [] then true
    else if Less(a[0], b[0]) then true
    else if Less(b[0], a[0]) then false
    else ElemsLess(a[1..], b[1..])
  }

  predicate MembersLess(a: seq<Member>, b: seq<Member>)
    decreases MembersSize(a) + MembersSize(b), 2
  {
    if b == [] then false
    else if a == [] then true
    else if MemberLess(a[0], b[0]) then true
    else if MemberLess(b[0], a[0]) then false
    else MembersLess(a[1..], b[1..])
  }

  /** operator< on std::pair. */
  predicate MemberLess(a: Member, b: Member)
    decreases Size(a.value) + Size(b.value), 1
  {
    StringLess(a.key, b.key) || (!StringLess(b.key, a.key) && Less(a.value, b.value))
  }

  // ----- Strings -----

  lemma {:induction false} StringTrichotomy(a: string, b: string)
    ensures !StringLess(a, a)
    ensures !(StringLess(a, b) && StringLess(b, a))
    ensures StringLess(a, b) || StringLess(b, a) || a == b
    decreases a
  {
    if a != [] {
      StringTrichotomy(a[1..], if b == [] then [] else b[1..]);
      if b != [] && a[0] == b[0] && a[1..] == b[1..] {
        assert a == [a[0]] + a[1..] && b == [b[0]] + b[1..];
      }
    }
  }

  lemma {:induction false} StringTransitive(a: string, b: string, c: string)
    requires StringLess(a, b) && StringLess(b, c)
    ensures StringLess(a, c)
    decreases a
  {
    if a != [] && b[0] == a[0] && c[0] == b[0] { StringTransitive(a[1..], b[1..], c[1..]); }
  }

  // ----- Values without floating-point numbers -----

  predicate FloatFree(v: Value)
    decreases v
  {
    match v
    case Float(_) => false
    case Arr(elems) => ElemsFloatFree(elems)
    case Obj(members) => MembersFloatFree(members)
    case _ => true
  }

  predicate ElemsFloatFree(a: seq<Value>)
    decreases a
  {
    a == [] || (FloatFree(a[0]) && ElemsFloatFree(a[1..]))
  }

  predicate MembersFloatFree(a: seq<Member>)
    decreases a
  {
    a == [] || (FloatFree(a[0].value) && MembersFloatFree(a[1..]))
  }

  /** operator== is equality. */
  lemma {:induction false} EqualIsEquality(a: Value, b: Value)
    requires FloatFree(a) && FloatFree(b)
    ensures Equal(a, b) <==> a == b
    decreases a, 1
  {
    if a.Arr? && b.Arr? { ElemsEquality(a.elems, b.elems); }
    if a.Obj? && b.Obj? { MembersEquality(a.members, b.members); }
  }

  lemma {:induction false} ElemsEquality(a: seq<Value>, b: seq<Value>)
    requires ElemsFloatFree(a) && ElemsFloatFree(b)
    ensures AllEqual(a, b) <==> a == b
    decreases a, 0
  {
    if a != [] && b != [] {
      EqualIsEquality(a[0], b[0]);
      ElemsEquality(a[1..], b[1..]);
      assert a == [a[0]] + a[1..] && b == [b[0]] + b[1..];
    }
  }

  lemma {:induction false} MembersEquality(a: seq<Member>, b: seq<Member>)
    requires MembersFloatFree(a) && MembersFloatFree(b)
    ensures AllMembersEqual(a, b) <==> a == b
    decreases a, 0
  {
    if a != [] && b != [] {
      EqualIsEquality(a[0].value, b[0].value);
      MembersEquality(a[1..], b[1..]);
      assert a == [a[0]] + a[1..] && b == [b[0]] + b[1..];
    }
  }

  // ----- Values without integers -----

  predicate IntFree(v: Value)
    decreases v
  {
    match v
    case Int(_) => false
    case Arr(elems) => ElemsIntFree(elems)
    case Obj(members) => MembersIntFree(members)
    case _ => true
  }

  predicate ElemsIntFree(a: seq<Value>)
    decreases a
  {
    a == [] || (IntFree(a[0]) && ElemsIntFree(a[1..]))
  }

  predicate MembersIntFree(a: seq<Member>)
    decreases a
  {
    a == [] || (IntFree(a[0].value) && MembersIntFree(a[1..]))
  }

  /** Without integers, exactly one of a < b, a == b and b < a holds. */
  lemma {:induction false} PlainTrichotomy(a: Value, b: Value)
    requires IntFree(a) && IntFree(b)
    ensures Less(a, b) ==> !Less(b, a) && a != b
    ensures Less(a, b) || Less(b, a) || a == b
    decreases Size(a) + Size(b), 0
  {
    if a.Arr? && b.Arr? { PlainElemsTrichotomy(a.elems, b.elems); }
    else if a.Obj? && b.Obj? { PlainMembersTrichotomy(a.members, b.members); }
    else if a.Str? && b.Str? { StringTrichotomy(a.s, b.s); }
  }

  lemma {:induction false} PlainElemsTrichotomy(a: seq<Value>, b: seq<Value>)
    requires ElemsIntFree(a) && ElemsIntFree(b)
    ensures ElemsLess(a, b) ==> !ElemsLess(b, a) && a != b
    ensures ElemsLess(a, b) || ElemsLess(b, a) || a == b
    decreases ElemsSize(a) + ElemsSize(b), 1
  {
    if a != [] && b != [] {
      PlainTrichotomy(a[0], b[0]);
      PlainElemsTrichotomy(a[1..], b[1..]);
      assert a == [a[0]] + a[1..] && b == [b[0]] + b[1..];
    }
  }

  lemma {:induction false} PlainMembersTrichotomy(a: seq<Member>, b: seq<Member>)
    requires MembersIntFree(a) && MembersIntFree(b)
    ensures MembersLess(a, b) ==> !MembersLess(b, a) && a != b
    ensures MembersLess(a, b) || MembersLess(b, a) || a == b
    decreases MembersSize(a) + MembersSize(b), 2
  {
    if a != [] && b != [] {
      PlainMemberTrichotomy(a[0], b[0]);
      PlainMembersTrichotomy(a[1..], b[1..]);
      assert a == [a[0]] + a[1..] && b == [b[0]] + b[1..];
    }
  }

  lemma {:induction false} PlainTransitive(a: Value, b: Value, c: Value)
    requires IntFree(a) && IntFree(b) && IntFree(c) && Less(a, b) && Less(b, c)
    ensures Less(a, c)
    decreases Size(a) + Size(b) + Size(c), 0
  {
    if a.Arr? && b.Arr? && c.Arr? { PlainElemsTransitive(a.elems, b.elems, c.elems); }
    else if a.Obj? && b.Obj? && c.Obj? { PlainMembersTransitive(a.members, b.members, c.members); }
    else if a.Str? && b.Str? && c.Str? { StringTransitive(a.s, b.s, c.s); }
  }

  lemma {:induction false} PlainElemsTransitive(a: seq<Value>, b: seq<Value>, c: seq<Value>)
    requires ElemsIntFree(a) && ElemsIntFree(b) && ElemsIntFree(c) && ElemsLess(a, b) && ElemsLess(b, c)
    ensures ElemsLess(a, c)
    decreases ElemsSize(a) + ElemsSize(b) + ElemsSize(c), 1
  {
    if a != [] {
      PlainTrichotomy(a[0], b[0]);
      PlainTrichotomy(b[0], c[0]);
      if Less(a[0], b[0]) && Less(b[0], c[0]) {
        PlainTransitive(a[0], b[0], c[0]);
      } else if a[0] == b[0] == c[0] {
        PlainTrichotomy(a[0], c[0]);
        PlainElemsTransitive(a[1..], b[1..], c[1..]);
      }
    }
  }

  lemma {:induction false} PlainMembersTransitive(a: seq<Member>, b: seq<Member>, c: seq<Member>)
    requires MembersIntFree(a) && MembersIntFree(b) && MembersIntFree(c) && MembersLess(a, b) && MembersLess(b, c)
    ensures MembersLess(a, c)
    decreases MembersSize(a) + MembersSize(b) + MembersSize(c), 2
  {
    if a != [] {
      PlainMemberTrichotomy(a[0], b[0]);
      PlainMemberTrichotomy(b[0], c[0]);
      if MemberLess(a[0], b[0]) && MemberLess(b[0], c[0]) {
        PlainMemberTransitive(a[0], b[0], c[0]);
      } else if a[0] == b[0] == c[0] {
        PlainMemberTrichotomy(a[0], c[0]);
        PlainMembersTransitive(a[1..], b[1..], c[1..]);
      }
    }
  }

  lemma {:induction false} PlainMemberTrichotomy(a: Member, b: Member)
    requires IntFree(a.value) && IntFree(b.value)
    ensures MemberLess(a, b) ==> !MemberLess(b, a) && a != b
    ensures MemberLess(a, b) || MemberLess(b, a) || a == b
    decreases Size(a.value) + Size(b.value), 1
  {
    StringTrichotomy(a.key, b.key);
    PlainTrichotomy(a.value, b.value);
  }

  lemma {:induction false} PlainMemberTransitive(a: Member, b: Member, c: Member)
    requires IntFree(a.value) && IntFree(b.value) && IntFree(c.value) && MemberLess(a, b) && MemberLess(b, c)
    ensures MemberLess(a, c)
    decreases Size(a.value) + Size(b.value) + Size(c.value), 1
  {
    StringTrichotomy(a.key, b.key);
    StringTrichotomy(b.key, c.key);
    if StringLess(a.key, b.key) && StringLess(b.key, c.key) {
      StringTransitive(a.key, b.key, c.key);
    } else if a.key == b.key == c.key {
      PlainTransitive(a.value, b.value, c.value);
    }
  }

  /** The order of the types: null < boolean < number < object < array < string. */
  lemma KindsInOrder(b: bool, n: int, members: seq<Member>, elems: seq<Value>, s: string)
    ensures Less(Null, Bool(b)) && Less(Bool(b), Int(n)) && Less(Int(n), Obj(members))
    ensures Less(Obj(members), Arr(elems)) && Less(Arr(elems), Str(s))
  {}

  // ----- Values with floating-point numbers -----

  /** The values that there are: 64-bit integers, doubles, and members in the order of their different keys. */
  predicate Storable(v: Value)
    decreases v
  {
    match v
    case Int(n) => IsInt64(n)
    case Float(r) => Double(r)
    case Arr(elems) => ElemsStorable(elems)
    case Obj(members) => MembersStorable(members)
    case _ => true
  }

  predicate ElemsStorable(a: seq<Value>)
    decreases a
  {
    a == [] || (Storable(a[0]) && ElemsStorable(a[1..]))
  }

  predicate MembersStorable(a: seq<Member>)
    decreases a
  {
    a == [] || (Storable(a[0].value) && MembersStorable(a[1..]) && (|a| > 1 ==> StringLess(a[0].key, a[1].key)))
  }

  /** Every floating-point number in the value is settled. */
  predicate Tame(v: Value)
    decreases v
  {
    match v
    case Float(r) => Settled(r)
    case Arr(elems) => ElemsTame(elems)
    case Obj(members) => MembersTame(members)
    case _ => true
  }

  predicate ElemsTame(a: seq<Value>)
    decreases a
  {
    a == [] || (Tame(a[0]) && ElemsTame(a[1..]))
  }

  predicate MembersTame(a: seq<Member>)
    decreases a
  {
    a == [] || (Tame(a[0].value) && MembersTame(a[1..]))
  }

  /** Every floating-point number in the value is in place. */
  predicate Placed(v: Value)
    decreases v
  {
    match v
    case Float(r) => InPlace(r)
    case Arr(elems) => ElemsPlaced(elems)
    case Obj(members) => MembersPlaced(members)
    case _ => true
  }

  predicate ElemsPlaced(a: seq<Value>)
    decreases a
  {
    a == [] || (Placed(a[0]) && ElemsPlaced(a[1..]))
  }

  predicate MembersPlaced(a: seq<Member>)
    decreases a
  {
    a == [] || (Placed(a[0].value) && MembersPlaced(a[1..]))
  }

  lemma {:induction false} FloatFreeTame(v: Value)
    requires FloatFree(v)
    ensures Tame(v)
    decreases v, 1
  {
    match v
    case Arr(elems) => FloatFreeElemsTame(elems);
    case Obj(members) => FloatFreeMembersTame(members);
    case _ =>
  }

  lemma {:induction false} FloatFreeElemsTame(a: seq<Value>)
    requires ElemsFloatFree(a)
    ensures ElemsTame(a)
    decreases a, 0
  {
    if a != [] {
      FloatFreeTame(a[0]);
      FloatFreeElemsTame(a[1..]);
    }
  }

  lemma {:induction false} FloatFreeMembersTame(a: seq<Member>)
    requires MembersFloatFree(a)
    ensures MembersTame(a)
    decreases a, 0
  {
    if a != [] {
      FloatFreeTame(a[0].value);
      FloatFreeMembersTame(a[1..]);
    }
  }

  lemma {:induction false} TamePlaced(v: Value)
    requires Tame(v)
    ensures Placed(v)
    decreases v, 1
  {
    match v
    case Arr(elems) => TameElemsPlaced(elems);
    case Obj(members) => TameMembersPlaced(members);
    case _ =>
  }

  lemma {:induction false} TameElemsPlaced(a: seq<Value>)
    requires ElemsTame(a)
    ensures ElemsPlaced(a)
    decreases a, 0
  {
    if a != [] {
      TamePlaced(a[0]);
      TameElemsPlaced(a[1..]);
    }
  }

  lemma {:induction false} TameMembersPlaced(a: seq<Member>)
    requires MembersTame(a)
    ensures MembersPlaced(a)
    decreases a, 0
  {
    if a != [] {
      TamePlaced(a[0].value);
      TameMembersPlaced(a[1..]);
    }
  }

  /** The value with a real number for every integer. */
  function AsReals(v: Value): (w: Value)
    ensures IntFree(w)
    decreases v
  {
    match v
    case Int(n) => Float(n as real)
    case Arr(elems) => Arr(ElemsAsReals(elems))
    case Obj(members) => Obj(MembersAsReals(members))
    case _ => v
  }

  function ElemsAsReals(a: seq<Value>): (b: seq<Value>)
    ensures ElemsIntFree(b) && |b| == |a|
    decreases a
  {
    if a == [] then [] else [AsReals(a[0])] + ElemsAsReals(a[1..])
  }

  function MembersAsReals(a: seq<Member>): (b: seq<Member>)
    ensures MembersIntFree(b) && |b| == |a|
    decreases a
  {
    if a == [] then [] else [Member(a[0].key, AsReals(a[0].value))] + MembersAsReals(a[1..])
  }

  /** Tame values are equal if they are equal as real numbers. */
  lemma {:induction false} EqualAsReals(a: Value, b: Value)
    requires Tame(a) && Tame(b)
    ensures Equal(a, b) <==> AsReals(a) == AsReals(b)
    decreases a, 1
  {
    if a.Float? && b.Int? { SettledCompares(b.n, a.r); }
    else if a.Arr? && b.Arr? { EqualElemsAsReals(a.elems, b.elems); }
    else if a.Obj? && b.Obj? { EqualMembersAsReals(a.members, b.members); }
  }

  lemma {:induction false} EqualElemsAsReals(a: seq<Value>, b: seq<Value>)
    requires ElemsTame(a) && ElemsTame(b)
    ensures AllEqual(a, b) <==> ElemsAsReals(a) == ElemsAsReals(b)
    decreases a, 0
  {
    if a != [] && b != [] {
      EqualAsReals(a[0], b[0]);
      EqualElemsAsReals(a[1..], b[1..]);
      SplitEqual(AsReals(a[0]), ElemsAsReals(a[1..]), AsReals(b[0]), ElemsAsReals(b[1..]));
    }
  }

  lemma {:induction false} EqualMembersAsReals(a: seq<Member>, b: seq<Member>)
    requires MembersTame(a) && MembersTame(b)
    ensures AllMembersEqual(a, b) <==> MembersAsReals(a) == MembersAsReals(b)
    decreases a, 0
  {
    if a != [] && b != [] {
      EqualAsReals(a[0].value, b[0].value);
      EqualMembersAsReals(a[1..], b[1..]);
      SplitEqual(Member(a[0].key, AsReals(a[0].value)), MembersAsReals(a[1..]),
                 Member(b[0].key, AsReals(b[0].value)), MembersAsReals(b[1..]));
    }
  }

  lemma SplitEqual<T>(x: T, a: seq<T>, y: T, b: seq<T>)
    ensures [x] + a == [y] + b <==> x == y && a == b
  {
    if [x] + a == [y] + b {
      assert ([x] + a)[0] == x && ([x] + a)[1..] == a && ([y] + b)[0] == y && ([y] + b)[1..] == b;
    }
  }

  /** Placed values are in the order of the real numbers. */
  lemma {:induction false} LessAsReals(a: Value, b: Value)
    requires Placed(a) && Placed(b)
    ensures Less(a, b) <==> Less(AsReals(a), AsReals(b))
    decreases Size(a) + Size(b), 0
  {
    if a.Float? && b.Int? { PlacedCompares(b.n, a.r); }
    else if a.Int? && b.Float? { PlacedCompares(a.n, b.r); }
    else if a.Arr? && b.Arr? { ElemsLessAsReals(a.elems, b.elems); }
    else if a.Obj? && b.Obj? { MembersLessAsReals(a.members, b.members); }
  }

  lemma {:induction false} ElemsLessAsReals(a: seq<Value>, b: seq<Value>)
    requires ElemsPlaced(a) && ElemsPlaced(b)
    ensures ElemsLess(a, b) <==> ElemsLess(ElemsAsReals(a), ElemsAsReals(b))
    decreases ElemsSize(a) + ElemsSize(b), 1
  {
    if a != [] && b != [] {
      LessAsReals(a[0], b[0]);
      LessAsReals(b[0], a[0]);
      ElemsLessAsReals(a[1..], b[1..]);
      assert ElemsAsReals(a)[1..] == ElemsAsReals(a[1..]) && ElemsAsReals(b)[1..] == ElemsAsReals(b[1..]);
    }
  }

  lemma {:induction false} MembersLessAsReals(a: seq<Member>, b: seq<Member>)
    requires MembersPlaced(a) && MembersPlaced(b)
    ensures MembersLess(a, b) <==> MembersLess(MembersAsReals(a), MembersAsReals(b))
    decreases MembersSize(a) + MembersSize(b), 2
  {
    if a != [] && b != [] {
      LessAsReals(a[0].value, b[0].value);
      LessAsReals(b[0].value, a[0].value);
      MembersLessAsReals(a[1..], b[1..]);
      assert MembersAsReals(a)[1..] == MembersAsReals(a[1..]) && MembersAsReals(b)[1..] == MembersAsReals(b[1..]);
    }
  }

  /** What == and < promise of two values: == does not depend on the order, and exactly one of the three holds. */
  predicate Lawful(a: Value, b: Value) {
    && (Equal(a, b) <==> Equal(b, a))
    && (Less(a, b) ==> !Less(b, a) && !Equal(a, b))
    && (Less(b, a) ==> !Equal(a, b))
    && (Less(a, b) || Less(b, a) || Equal(a, b))
  }

  lemma Trichotomy(a: Value, b: Value)
    requires Tame(a) && Tame(b)
    ensures Lawful(a, b) && !Less(a, a)
  {
    TamePlaced(a);
    TamePlaced(b);
    EqualAsReals(a, b);
    EqualAsReals(b, a);
    LessAsReals(a, b);
    LessAsReals(b, a);
    LessAsReals(a, a);
    PlainTrichotomy(AsReals(a), AsReals(b));
    PlainTrichotomy(AsReals(a), AsReals(a));
  }

  /** Neither is less: a sort or a map takes them to be the same. */
  predicate Tied(a: Value, b: Value) { !Less(a, b) && !Less(b, a) }

  /** Placed values are tied only if they are the same real numbers. */
  lemma TiedAreSame(a: Value, b: Value)
    requires Placed(a) && Placed(b)
    ensures Tied(a, b) <==> AsReals(a) == AsReals(b)
  {
    LessAsReals(a, b);
    LessAsReals(b, a);
    PlainTrichotomy(AsReals(a), AsReals(b));
  }

  lemma PlacedTransitive(a: Value, b: Value, c: Value)
    requires Placed(a) && Placed(b) && Placed(c) && Less(a, b) && Less(b, c)
    ensures Less(a, c)
  {
    LessAsReals(a, b);
    LessAsReals(b, c);
    LessAsReals(a, c);
    PlainTransitive(AsReals(a), AsReals(b), AsReals(c));
  }
}
