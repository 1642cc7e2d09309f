/** base64_encode and base64_decode in encoding.h. Their bit operations on unsigned char are written as divisions and
    remainders by powers of two. */
module Base64 {
  import opened Prelude

  type Byte = x: int | 0 <= x < 256
  type Sextet = x: int | 0 <= x < 64

  /** base64_chars[x]: the capital letters, the small letters, the digits, + and /. */
  function CharOf(x: Sextet): char {
    if x < 26 then 'A' + x as char
    else if x < 52 then 'a' + (x - 26) as char
    else if x < 62 then '0' + (x - 52) as char
    else if x == 62 then '+' else '/'
  }

  predicate IsBase64(c: char) { 'A' <= c <= 'Z' || 'a' <= c <= 'z' || '0' <= c <= '9' || c == '+' || c == '/' }

  /** base64_chars.find(c); not finding it gives npos, which is 255 in an unsigned char. */
  function Find(c: char): Byte {
    if 'A' <= c <= 'Z' then c as int - 'A' as int
    else if 'a' <= c <= 'z' then c as int - 'a' as int + 26
    else if '0' <= c <= '9' then c as int - '0' as int + 52
    else if c == '+' then 62 else if c == '/' then 63 else 255
  }

  lemma FindChar(x: Sextet)
    ensures IsBase64(CharOf(x)) && Find(CharOf(x)) == x
  {}

  // ----- Groups of three bytes and of four characters -----

  function First(a: Byte): Sextet { a / 4 }
  function Second(a: Byte, b: Byte): Sextet { a % 4 * 16 + b / 16 }
  function Third(b: Byte, c: Byte): Sextet { b % 16 * 4 + c / 64 }
  function Fourth(c: Byte): Sextet { c % 64 }

  function Byte0(p: Byte, q: Byte): Byte { (p * 4 + q / 16 % 4) % 256 }
  function Byte1(q: Byte, r: Byte): Byte { (q % 16 * 16 + r / 4 % 16) % 256 }
  function Byte2(r: Byte, s: Byte): Byte { (r % 4 * 64 + s) % 256 }

  lemma GroupBack(a: Byte, b: Byte, c: Byte)
    ensures Byte0(First(a), Second(a, b)) == a && Byte1(Second(a, b), Third(b, c)) == b
    ensures Byte2(Third(b, c), Fourth(c)) == c
  {
    hide Byte0, Byte1, Byte2;
    FirstBack(a, b);
    SecondBack(a, b, c);
    ThirdBack(b, c);
  }

  lemma FirstBack(a: Byte, b: Byte)
    ensures Byte0(First(a), Second(a, b)) == a
  {
    assert Second(a, b) / 16 == a % 4;
  }

  lemma SecondBack(a: Byte, b: Byte, c: Byte)
    ensures Byte1(Second(a, b), Third(b, c)) == b
  {
    assert Second(a, b) % 16 == b / 16 && Third(b, c) / 4 == b % 16;
  }

  lemma ThirdBack(b: Byte, c: Byte)
    ensures Byte2(Third(b, c), Fourth(c)) == c
  {
    assert Third(b, c) % 4 == c / 64;
  }

  function Group(a: Byte, b: Byte, c: Byte): string {
    [CharOf(First(a)), CharOf(Second(a, b)), CharOf(Third(b, c)), CharOf(Fourth(c))]
  }

  /** The text of some bytes. */
  function Text(bytes: seq<Byte>): string {
    if |bytes| == 0 then []
    else if |bytes| == 1 then Group(bytes[0], 0, 0)[..2] + "=="
    else if |bytes| == 2 then Group(bytes[0], bytes[1], 0)[..3] + "="
    else Group(bytes[0], bytes[1], bytes[2]) + Text(bytes[3..])
  }

  /** The bytes of some characters, up to the first one that is no base64 character. */
  function Bytes(text: string): seq<Byte> {
    if !Plain(text, 4) then Tail(text)
    else
      var p, q, r, s := Find(text[0]), Find(text[1]), Find(text[2]), Find(text[3]);
      [Byte0(p, q), Byte1(q, r), Byte2(r, s)] + Bytes(text[4..])
  }

  /** The first n characters are base64 characters. */
  predicate Plain(text: string, n: nat) { n <= |text| && forall i :: 0 <= i < n ==> IsBase64(text[i]) }

  /** Fewer than four characters give one byte less than there are. */
  function Tail(text: string): seq<Byte> {
    if Plain(text, 3) then [Byte0(Find(text[0]), Find(text[1])), Byte1(Find(text[1]), Find(text[2]))]
    else if Plain(text, 2) then [Byte0(Find(text[0]), Find(text[1]))]
    else []
  }

  // ----- The two loops -----

  /** One turn of the loop: the next byte joins those that are waiting. */
  lemma ByteJoins(bytes: seq<Byte>, three: seq<Byte>, i: nat, k: nat)
    requires i < 3 == |three| && k < |bytes|
    ensures three[i := bytes[k]][..i + 1] + bytes[k + 1..] == three[..i] + bytes[k..]
  {}

  lemma GroupText(three: seq<Byte>, rest: seq<Byte>)
    requires |three| == 3
    ensures Text(three + rest) == Group(three[0], three[1], three[2]) + Text(rest)
  {
    assert (three + rest)[3..] == rest;
  }

  method Encode(bytes: seq<Byte>) returns (ret: string)
    ensures ret == Text(bytes)
  {
    hide Text, Group;
    ret := [];
    var i: nat, k: nat := 0, 0;
    var three: seq<Byte> := [0, 0, 0];
    Nothing(three, bytes);
    while k < |bytes|
      invariant i < 3 == |three| && k <= |bytes| && Text(bytes) == ret + Text(three[..i] + bytes[k..])
    {
      ByteJoins(bytes, three, i, k);
      three := three[i := bytes[k]];
      i, k := i + 1, k + 1;
      if i == 3 {
        assert three[..3] == three;
        GroupText(three, bytes[k..]);
        Associate(ret, Group(three[0], three[1], three[2]), Text(bytes[k..]));
        ret := ret + Group(three[0], three[1], three[2]);
        i := 0;
        Nothing(three, bytes[k..]);
      }
    }
    assert three[..i] + bytes[k..] == three[..i];
    var last := EncodeLast(three, i);
    ret := ret + last;
  }

  lemma Nothing(three: seq<Byte>, rest: seq<Byte>)
    requires |three| == 3
    ensures three[..0] + rest == rest && [] + Text(rest) == Text(rest)
  {}

  /** The bytes that are left, with padding. */
  method EncodeLast(bytes: seq<Byte>, n: nat) returns (ret: string)
    requires n < 3 == |bytes|
    ensures ret == Text(bytes[..n])
  {
    ret := [];
    if n > 0 {
      var three, j, i := bytes, n, n;
      while j < 3
        invariant n <= j <= 3 == |three| && three[..n] == bytes[..n] && forall m :: n <= m < j ==> three[m] == 0
      {
        three := three[j := 0];
        j := j + 1;
      }
      ret := Group(three[0], three[1], three[2])[..i + 1];
      assert bytes[..n][0] == three[..n][0] && (n == 2 ==> bytes[..n][1] == three[..n][1]);
      while i < 3
        invariant n <= i <= 3 && ret == Group(three[0], three[1], three[2])[..n + 1] + seq(i - n, _ => '=')
      {
        ret := ret + "=";
        i := i + 1;
      }
      if n == 1 { assert seq(2, _ => '=') == "=="; } else { assert seq(1, _ => '=') == "="; }
    }
  }

  method Decode(text: string) returns (ret: seq<Byte>)
    ensures ret == Bytes(text)
  {
    hide Bytes, Tail;
    ret := [];
    var i: nat, k: nat := 0, 0;
    var four: string := "AAAA";
    assert text[0..] == text && [] + Bytes(text) == Bytes(text);
    while k < |text| && text[k] != '=' && IsBase64(text[k])
      invariant i < 4 == |four| && i <= k <= |text| && Bytes(text) == ret + Bytes(text[k - i..])
      invariant four[..i] == text[k - i..k] && Plain(text[k - i..], i)
    {
      CharJoins(text, four, i, k);
      four := four[i := text[k]];
      i, k := i + 1, k + 1;
      if i == 4 {
        var group := DecodeGroup(four);
        FourBytes(text[k - 4..], four, group);
        assert text[k - 4..][4..] == text[k..];
        Associate(ret, group, Bytes(text[k..]));
        ret := ret + group;
        i := 0;
      }
    }
    LastBytes(text[k - i..], i);
    assert four[..i] == text[k - i..][..i];
    var last := DecodeLast(four, i);
    ret := ret + last;
  }

  lemma CharJoins(text: string, four: string, i: nat, k: nat)
    requires i < 4 == |four| && i <= k < |text| && four[..i] == text[k - i..k] && Plain(text[k - i..], i)
    requires IsBase64(text[k])
    ensures four[i := text[k]][..i + 1] == text[k - i..k + 1] && Plain(text[k - i..], i + 1)
  {
    assert four[i := text[k]][..i + 1] == four[..i] + [text[k]];
    assert text[k - i..k + 1] == text[k - i..k] + [text[k]] && text[k - i..][i] == text[k];
  }

  lemma FourBytes(text: string, four: string, group: seq<Byte>)
    requires Plain(text, 4) && |four| == 4 && four[..4] == text[..4] && group == GroupBytes(four)
    ensures Bytes(text) == group + Bytes(text[4..])
  {
    assert forall i :: 0 <= i < 4 ==> four[i] == four[..4][i] && text[i] == text[..4][i];
  }

  function GroupBytes(four: string): seq<Byte>
    requires |four| == 4
  {
    var p, q, r, s := Find(four[0]), Find(four[1]), Find(four[2]), Find(four[3]);
    [Byte0(p, q), Byte1(q, r), Byte2(r, s)]
  }

  method DecodeGroup(four: string) returns (three: seq<Byte>)
    requires |four| == 4
    ensures three == GroupBytes(four)
  {
    var found: seq<Byte> := [];
    for i := 0 to 4
      invariant |found| == i && forall j :: 0 <= j < i ==> found[j] == Find(four[j])
    {
      found := found + [Find(four[i])];
    }
    three := [Byte0(found[0], found[1]), Byte1(found[1], found[2]), Byte2(found[2], found[3])];
  }

  /** The characters that are left do not make a group. */
  lemma LastBytes(text: string, i: nat)
    requires i < 4 && Plain(text, i) && (i < |text| ==> text[i] == '=' || !IsBase64(text[i]))
    ensures Bytes(text) == Tail(text[..i])
  {
    assert !Plain(text, i + 1) by { if i < |text| { assert !IsBase64(text[i]); } }
    assert Bytes(text) == Tail(text);
    assert forall n: nat :: n <= i ==> Plain(text, n) && Plain(text[..i], n);
    assert forall n: nat :: i < n ==> !Plain(text, n) && !Plain(text[..i], n);
  }

  /** The rest of the array is filled with zeros, which are not found. */
  method DecodeLast(chars: string, n: nat) returns (ret: seq<Byte>)
    requires n < 4 == |chars| && Plain(chars[..n], n)
    ensures ret == Tail(chars[..n])
  {
    ret := [];
    if n > 0 {
      var four, j := chars, n;
      while j < 4
        invariant n <= j <= 4 == |four| && four[..n] == chars[..n]
      {
        four := four[j := '\0'];
        j := j + 1;
      }
      var three := DecodeGroup(four);
      ret := three[..n - 1];
      assert forall m :: 0 <= m < n ==> four[m] == four[..n][m];
      assert forall m: nat :: n < m ==> !Plain(chars[..n], m);
    }
  }

  // ----- The round trip -----

  lemma PlainGroup(a: Byte, b: Byte, c: Byte)
    ensures |Group(a, b, c)| == 4 && Plain(Group(a, b, c), 4)
    ensures var g := Group(a, b, c);
      Find(g[0]) == First(a) && Find(g[1]) == Second(a, b) && Find(g[2]) == Third(b, c) && Find(g[3]) == Fourth(c)
  {
    FindChar(First(a));
    FindChar(Second(a, b));
    FindChar(Third(b, c));
    FindChar(Fourth(c));
  }

  /** Decoding what was encoded gives the bytes back. */
  lemma {:induction false} RoundTrip(bytes: seq<Byte>)
    ensures Bytes(Text(bytes)) == bytes
    decreases |bytes|
  {
    hide Find, IsBase64, CharOf;
    if |bytes| >= 3 {
      var g, rest := Group(bytes[0], bytes[1], bytes[2]), Text(bytes[3..]);
      PlainGroup(bytes[0], bytes[1], bytes[2]);
      GroupBack(bytes[0], bytes[1], bytes[2]);
      RoundTrip(bytes[3..]);
      hide Text, Bytes, Group;
      FourBytes(g + rest, g, GroupBytes(g));
      assert (g + rest)[4..] == rest;
    } else {
      LastRoundTrip(bytes);
    }
  }

  lemma LastRoundTrip(bytes: seq<Byte>)
    requires |bytes| < 3
    ensures Bytes(Text(bytes)) == bytes
  {
    hide Group, Bytes;
    if |bytes| == 0 {
      LastBytes("", 0);
    } else if |bytes| == 1 {
      PaddedBack(bytes[0], 0, 2);
      assert bytes == [bytes[0]];
    } else {
      PaddedBack(bytes[0], bytes[1], 3);
    }
  }

  lemma PaddedBack(a: Byte, b: Byte, n: nat)
    requires 2 <= n < 4
    ensures Bytes(Group(a, b, 0)[..n] + if n == 2 then "==" else "=") == [a, b][..n - 1]
  {
    hide Bytes, Tail, Group, Byte0, Byte1, Byte2, First, Second, Third, Fourth, Find, IsBase64;
    var g := Group(a, b, 0);
    PlainGroup(a, b, 0);
    GroupBack(a, b, 0);
    PaddedBytes(g, n);
    TailOf(g, n);
  }

  lemma PaddedBytes(g: string, n: nat)
    requires |g| == 4 && Plain(g, 4) && 2 <= n < 4
    ensures Bytes(g[..n] + if n == 2 then "==" else "=") == Tail(g[..n])
  {
    hide Bytes, Tail, IsBase64;
    var text := g[..n] + if n == 2 then "==" else "=";
    assert text[n] == '=' && text[..n] == g[..n] && forall i :: 0 <= i < n ==> text[i] == g[i];
    LastBytes(text, n);
  }

  lemma TailOf(g: string, n: nat)
    requires |g| == 4 && Plain(g, 4) && 2 <= n < 4
    ensures Tail(g[..n]) == GroupBytes(g)[..n - 1]
  {
    hide Find, IsBase64;
    assert forall m :: 0 <= m < n ==> g[..n][m] == g[m];
    assert Plain(g[..n], n) && (n == 2 ==> !Plain(g[..n], 3));
  }

  /** There are four characters for every three bytes begun. */
  lemma {:induction false} LengthExact(bytes: seq<Byte>)
    ensures |Text(bytes)| == 4 * ((|bytes| + 2) / 3)
    decreases |bytes|
  {
    hide CharOf, First, Second, Third, Fourth;
    if |bytes| >= 3 { LengthExact(bytes[3..]); }
  }

  // ----- Section 4 of RFC 4648 -----

  /** The last n bits of x, the most significant one first. */
  function Bits(x: nat, n: nat): (b: seq<bool>)
    ensures |b| == n
  {
    if n == 0 then [] else Bits(x / 2, n - 1) + [x % 2 == 1]
  }

  /** x without its last m bits */
  function Shifted(x: nat, m: nat): nat { if m == 0 then x else Shifted(x / 2, m - 1) }

  lemma {:induction false} BitsSplit(x: nat, n: nat, m: nat)
    ensures Bits(x, n + m) == Bits(Shifted(x, m), n) + Bits(x, m)
  {
    if m > 0 {
      BitsSplit(x / 2, n, m - 1);
    } else {
      assert Bits(x, n) + [] == Bits(x, n);
    }
  }

  function ByteBits(bytes: seq<Byte>): seq<bool> {
    if bytes == [] then [] else Bits(bytes[0], 8) + ByteBits(bytes[1..])
  }

  function CharBits(xs: seq<Sextet>): seq<bool> { if xs == [] then [] else Bits(xs[0], 6) + CharBits(xs[1..]) }

  function Chars(xs: seq<Sextet>): string { seq(|xs|, i requires 0 <= i < |xs| => CharOf(xs[i])) }

  function Padding(n: nat): string { if n % 3 == 1 then "==" else if n % 3 == 2 then "=" else "" }

  function ZeroBits(n: nat): seq<bool> {
    if n % 3 == 1 then [false, false, false, false] else if n % 3 == 2 then [false, false] else []
  }

  /** The 6-bit values whose characters the text shows. */
  function Sextets(bytes: seq<Byte>): seq<Sextet> {
    if |bytes| == 0 then []
    else if |bytes| == 1 then [First(bytes[0]), Second(bytes[0], 0)]
    else if |bytes| == 2 then [First(bytes[0]), Second(bytes[0], bytes[1]), Third(bytes[1], 0)]
    else
      [First(bytes[0]), Second(bytes[0], bytes[1]), Third(bytes[1], bytes[2]), Fourth(bytes[2])] + Sextets(bytes[3..])
  }

  lemma ShiftTwo(x: nat, m: nat)
    ensures Shifted(x, m + 2) == Shifted(x / 4, m)
  {
    assert x / 2 / 2 == x / 4 && Shifted(x / 2, m + 1) == Shifted(x / 2 / 2, m);
  }

  lemma Shifts(x: nat)
    ensures Shifted(x, 2) == x / 4 && Shifted(x, 4) == x / 16 && Shifted(x, 6) == x / 64
  {
    ShiftTwo(x, 0);
    ShiftTwo(x, 2);
    ShiftTwo(x / 4, 0);
    ShiftTwo(x, 4);
    ShiftTwo(x / 4, 2);
    ShiftTwo(x / 16, 0);
    assert x / 4 / 4 == x / 16 && x / 16 / 4 == x / 64;
  }

  /** The quarter of a number, and its remainder, modulo what is left of the modulus. */
  lemma LowSixteen(x: nat)
    ensures x % 16 % 4 == x % 4 && x / 4 % 4 == x % 16 / 4
  {
    var q, r := x / 16, x % 16;
    Quarter(x, 4 * q, r);
  }

  lemma LowSixtyFour(x: nat)
    ensures x % 64 % 4 == x % 4 && x / 4 % 16 == x % 64 / 4
  {
    var q, r := x / 64, x % 64;
    Quarter(x, 16 * q, r);
  }

  lemma Quarter(x: nat, q: nat, r: nat)
    requires x == 4 * q + r
    ensures x / 4 == q + r / 4 && x % 4 == r % 4
  {}

  lemma LowTwo(x: nat, y: nat)
    requires x % 4 == y % 4
    ensures Bits(x, 2) == Bits(y, 2)
  {
    TwoLowBits(x);
    TwoLowBits(y);
  }

  lemma TwoLowBits(x: nat)
    ensures Bits(x, 2) == [x % 4 / 2 == 1, x % 4 % 2 == 1]
  {
    assert x / 2 % 2 == x % 4 / 2 && x % 2 == x % 4 % 2;
    assert Bits(x / 2, 1) == Bits(x / 2 / 2, 0) + [x / 2 % 2 == 1];
  }

  lemma LowFour(x: nat, y: nat)
    requires x % 16 == y % 16
    ensures Bits(x, 4) == Bits(y, 4)
  {
    hide Bits, Shifted;
    Shifts(x);
    Shifts(y);
    BitsSplit(x, 2, 2);
    BitsSplit(y, 2, 2);
    LowSixteen(x);
    LowSixteen(y);
    LowTwo(x, y);
    LowTwo(x / 4, y / 4);
  }

  lemma LowSix(x: nat, y: nat)
    requires x % 64 == y % 64
    ensures Bits(x, 6) == Bits(y, 6)
  {
    hide Bits, Shifted;
    Shifts(x);
    Shifts(y);
    BitsSplit(x, 4, 2);
    BitsSplit(y, 4, 2);
    LowSixtyFour(x);
    LowSixtyFour(y);
    LowTwo(x, y);
    LowFour(x / 4, y / 4);
  }

  lemma FirstBits(a: Byte)
    ensures Bits(a, 8) == Bits(First(a), 6) + Bits(a, 2)
  {
    hide Bits, Shifted;
    Shifts(a);
    BitsSplit(a, 6, 2);
  }

  lemma SecondBits(a: Byte, b: Byte)
    ensures Bits(Second(a, b), 6) == Bits(a, 2) + Bits(b / 16, 4) && Bits(b, 8) == Bits(b / 16, 4) + Bits(b, 4)
  {
    hide Bits, Shifted;
    Shifts(b);
    Shifts(Second(a, b));
    BitsSplit(Second(a, b), 2, 4);
    BitsSplit(b, 4, 4);
    LowTwo(Second(a, b) / 16, a);
    LowFour(Second(a, b), b / 16);
  }

  lemma ThirdBits(b: Byte, c: Byte)
    ensures Bits(Third(b, c), 6) == Bits(b, 4) + Bits(c / 64, 2) && Bits(c, 8) == Bits(c / 64, 2) + Bits(c, 6)
  {
    hide Bits, Shifted;
    Shifts(c);
    Shifts(Third(b, c));
    BitsSplit(Third(b, c), 4, 2);
    BitsSplit(c, 2, 6);
    LowFour(Third(b, c) / 4, b);
    LowTwo(Third(b, c), c / 64);
  }

  lemma FourthBits(c: Byte)
    ensures Bits(Fourth(c), 6) == Bits(c, 6)
  {
    LowSix(Fourth(c), c);
  }

  lemma GroupBits(a: Byte, b: Byte, c: Byte)
    ensures Bits(First(a), 6) + (Bits(Second(a, b), 6) + (Bits(Third(b, c), 6) + Bits(Fourth(c), 6)))
      == Bits(a, 8) + (Bits(b, 8) + Bits(c, 8))
  {
    hide Bits, First, Second, Third, Fourth;
    FirstBits(a);
    SecondBits(a, b);
    ThirdBits(b, c);
    FourthBits(c);
    SixParts(Bits(First(a), 6), Bits(a, 2), Bits(b / 16, 4), Bits(b, 4), Bits(c / 64, 2), Bits(c, 6));
  }

  lemma SixParts<T>(p: seq<T>, q: seq<T>, r: seq<T>, s: seq<T>, t: seq<T>, u: seq<T>)
    ensures p + ((q + r) + ((s + t) + u)) == (p + q) + ((r + s) + (t + u))
  {}

  lemma CharsOfBoth(xs: seq<Sextet>, ys: seq<Sextet>)
    ensures Chars(xs + ys) == Chars(xs) + Chars(ys)
  {
    hide CharOf;
  }

  lemma {:induction false} CharBitsOfBoth(xs: seq<Sextet>, ys: seq<Sextet>)
    ensures CharBits(xs + ys) == CharBits(xs) + CharBits(ys)
    decreases xs
  {
    hide Bits;
    if xs == [] {
      assert xs + ys == ys;
    } else {
      CharBitsOfBoth(xs[1..], ys);
      assert (xs + ys)[1..] == xs[1..] + ys;
      Associate(Bits(xs[0], 6), CharBits(xs[1..]), CharBits(ys));
    }
  }

  function GroupSextets(a: Byte, b: Byte, c: Byte): seq<Sextet> { [First(a), Second(a, b), Third(b, c), Fourth(c)] }

  lemma GroupShown(a: Byte, b: Byte, c: Byte)
    ensures Chars(GroupSextets(a, b, c)) == Group(a, b, c)
    ensures CharBits(GroupSextets(a, b, c)) == Bits(a, 8) + (Bits(b, 8) + Bits(c, 8))
  {
    GroupBits(a, b, c);
    hide Bits, CharOf, First, Second, Third, Fourth;
    var xs := GroupSextets(a, b, c);
    FourBits(xs[0], xs[1], xs[2], xs[3]);
  }

  lemma FourBits(p: Sextet, q: Sextet, r: Sextet, s: Sextet)
    ensures CharBits([p, q, r, s]) == Bits(p, 6) + (Bits(q, 6) + (Bits(r, 6) + Bits(s, 6)))
  {
    hide Bits;
    assert [p, q, r, s][1..] == [q, r, s] && [q, r, s][1..] == [r, s] && [r, s][1..] == [s] && [s][1..] == [];
    assert CharBits([s]) == Bits(s, 6) + [];
    assert CharBits([r, s]) == Bits(r, 6) + CharBits([s]);
    assert CharBits([q, r, s]) == Bits(q, 6) + CharBits([r, s]);
  }

  lemma ByteBitsOfThree(bytes: seq<Byte>)
    requires |bytes| >= 3
    ensures ByteBits(bytes) == (Bits(bytes[0], 8) + (Bits(bytes[1], 8) + Bits(bytes[2], 8))) + ByteBits(bytes[3..])
  {
    FirstByte(bytes);
    FirstByte(bytes[1..]);
    FirstByte(bytes[2..]);
    hide Bits, ByteBits;
    assert bytes[1..][1..] == bytes[2..] && bytes[2..][1..] == bytes[3..];
    FourParts(Bits(bytes[0], 8), Bits(bytes[1], 8), Bits(bytes[2], 8), ByteBits(bytes[3..]));
  }

  lemma FirstByte(bytes: seq<Byte>)
    requires bytes != []
    ensures ByteBits(bytes) == Bits(bytes[0], 8) + ByteBits(bytes[1..])
  {}

  lemma FourParts<T>(a: seq<T>, b: seq<T>, c: seq<T>, d: seq<T>)
    ensures a + (b + (c + d)) == (a + (b + c)) + d
  {}

  /** The text is that of the standard: the bits of the bytes, most significant first, followed by zeros to fill the
      last 6-bit value, cut into 6-bit values, each shown as its character, and padded with = up to fours. */
  lemma {:induction false} AsInTheStandard(bytes: seq<Byte>)
    ensures Text(bytes) == Chars(Sextets(bytes)) + Padding(|bytes|)
    ensures CharBits(Sextets(bytes)) == ByteBits(bytes) + ZeroBits(|bytes|)
    decreases |bytes|
  {
    hide Text, Sextets, Chars, CharBits, ByteBits;
    if |bytes| >= 3 {
      AsInTheStandard(bytes[3..]);
      GroupInFront(bytes);
    } else {
      LastShown(bytes);
      LastBits(bytes);
    }
  }

  lemma GroupInFront(bytes: seq<Byte>)
    requires |bytes| >= 3
    requires Text(bytes[3..]) == Chars(Sextets(bytes[3..])) + Padding(|bytes[3..]|)
    requires CharBits(Sextets(bytes[3..])) == ByteBits(bytes[3..]) + ZeroBits(|bytes[3..]|)
    ensures Text(bytes) == Chars(Sextets(bytes)) + Padding(|bytes|)
    ensures CharBits(Sextets(bytes)) == ByteBits(bytes) + ZeroBits(|bytes|)
  {
    var group, rest := GroupSextets(bytes[0], bytes[1], bytes[2]), bytes[3..];
    hide Text, Sextets, Group, GroupSextets, Chars, CharBits, ByteBits, Bits, Padding, ZeroBits;
    GroupAhead(bytes);
    GroupShown(bytes[0], bytes[1], bytes[2]);
    CharsOfBoth(group, Sextets(rest));
    CharBitsOfBoth(group, Sextets(rest));
    ByteBitsOfThree(bytes);
    Associate(Chars(group), Chars(Sextets(rest)), Padding(|bytes|));
    Associate(Bits(bytes[0], 8) + (Bits(bytes[1], 8) + Bits(bytes[2], 8)), ByteBits(rest), ZeroBits(|bytes|));
  }

  lemma GroupAhead(bytes: seq<Byte>)
    requires |bytes| >= 3
    ensures Sextets(bytes) == GroupSextets(bytes[0], bytes[1], bytes[2]) + Sextets(bytes[3..])
    ensures Text(bytes) == Group(bytes[0], bytes[1], bytes[2]) + Text(bytes[3..])
    ensures Padding(|bytes[3..]|) == Padding(|bytes|) && ZeroBits(|bytes[3..]|) == ZeroBits(|bytes|)
  {
    hide CharOf, First, Second, Third, Fourth;
    assert (|bytes| - 3) % 3 == |bytes| % 3;
  }

  lemma LastShown(bytes: seq<Byte>)
    requires |bytes| < 3
    ensures Text(bytes) == Chars(Sextets(bytes)) + Padding(|bytes|)
  {
    hide CharOf, First, Second, Third, Fourth;
    if bytes != [] {
      var b := if |bytes| == 2 then bytes[1] else 0;
      var xs := Sextets(bytes);
      FrontShown(bytes[0], b, xs);
      hide Group, Chars, Sextets;
    }
  }

  lemma FrontShown(a: Byte, b: Byte, xs: seq<Sextet>)
    requires xs == [First(a), Second(a, b)] || xs == [First(a), Second(a, b), Third(b, 0)]
    ensures Chars(xs) == Group(a, b, 0)[..|xs|]
  {
    hide CharOf, First, Second, Third, Fourth;
  }

  lemma LastBits(bytes: seq<Byte>)
    requires |bytes| < 3
    ensures CharBits(Sextets(bytes)) == ByteBits(bytes) + ZeroBits(|bytes|)
  {
    hide Bits, First, Second, Third;
    if |bytes| == 0 {
    } else if |bytes| == 1 {
      OneBits(bytes[0]);
      hide CharBits, ByteBits;
      assert bytes == [bytes[0]];
    } else {
      TwoBits(bytes[0], bytes[1]);
      hide CharBits, ByteBits;
      assert bytes == [bytes[0], bytes[1]];
    }
  }

  lemma ZeroByte()
    ensures Bits(0, 4) == [false, false, false, false] && Bits(0, 2) == [false, false]
  {
    assert Bits(0, 1) == [false] && Bits(0, 2) == [false, false] && Bits(0, 3) == [false, false, false];
  }

  lemma OneBits(a: Byte)
    ensures CharBits([First(a), Second(a, 0)]) == ByteBits([a]) + [false, false, false, false]
  {
    hide Bits, First, Second;
    FirstBits(a);
    SecondBits(a, 0);
    ZeroByte();
    assert [First(a), Second(a, 0)][1..] == [Second(a, 0)] && [Second(a, 0)][1..] == [] && [a][1..] == [];
    assert CharBits([Second(a, 0)]) == Bits(Second(a, 0), 6) + [];
    assert ByteBits([a]) == Bits(a, 8) + [];
    Associate(Bits(First(a), 6), Bits(a, 2), Bits(0, 4));
  }

  lemma TwoBits(a: Byte, b: Byte)
    ensures CharBits([First(a), Second(a, b), Third(b, 0)]) == ByteBits([a, b]) + [false, false]
  {
    hide Bits, First, Second, Third, CharBits, ByteBits;
    FirstBits(a);
    SecondBits(a, b);
    ThirdBits(b, 0);
    ZeroByte();
    ThreeChars(First(a), Second(a, b), Third(b, 0));
    TwoBytes(a, b);
    FiveParts(Bits(First(a), 6), Bits(a, 2), Bits(b / 16, 4), Bits(b, 4), Bits(0, 2));
  }

  lemma ThreeChars(p: Sextet, q: Sextet, r: Sextet)
    ensures CharBits([p, q, r]) == Bits(p, 6) + (Bits(q, 6) + Bits(r, 6))
  {
    hide Bits;
    assert [p, q, r][1..] == [q, r] && [q, r][1..] == [r] && [r][1..] == [];
    assert CharBits([r]) == Bits(r, 6) + [];
    assert CharBits([q, r]) == Bits(q, 6) + CharBits([r]);
  }

  lemma TwoBytes(a: Byte, b: Byte)
    ensures ByteBits([a, b]) == Bits(a, 8) + Bits(b, 8)
  {
    hide Bits;
    assert [a, b][1..] == [b] && [b][1..] == [];
    assert ByteBits([b]) == Bits(b, 8) + [];
  }

  lemma FiveParts<T>(p: seq<T>, q: seq<T>, r: seq<T>, s: seq<T>, t: seq<T>)
    ensures p + ((q + r) + (s + t)) == ((p + q) + (r + s)) + t
  {}
}
