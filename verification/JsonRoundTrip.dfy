/** What parsing gives back of a printed value. get_string keeps the backslash in front of a quote and of another
    backslash, and integers are read as doubles, so the text printed for a value is parsed to that value exactly if no
    string or key in it contains one of these two characters and every integer in it is a double. */
module JsonRoundTrip {
  import opened Prelude
  import opened JsonNumbers
  import opened JsonOrder
  import P = JsonPrinter
  import opened JsonScanner
  import opened JsonParser
  import opened Numerals

  /** t is at position p of s. */
  ghost predicate At(s: string, p: nat, t: string) {
    p + |t| <= |s| && forall i {:trigger t[i]} :: 0 <= i < |t| ==> s[p + i] == t[i]
  }

  lemma AtSplit(s: string, p: nat, t: string, u: string)
    ensures At(s, p, t + u) <==> At(s, p, t) && At(s, p + |t|, u)
  {
    if At(s, p, t + u) {
      forall i | 0 <= i < |t| ensures s[p + i] == t[i] { assert (t + u)[i] == t[i]; }
      forall i | 0 <= i < |u| ensures s[p + |t| + i] == u[i] { assert (t + u)[|t| + i] == u[i]; }
    }
  }

  lemma AtSlice(s: string, p: nat, t: string)
    requires At(s, p, t)
    ensures s[p..p + |t|] == t
  {}

  lemma AtChar(s: string, p: nat, t: string, i: nat)
    requires At(s, p, t) && i < |t|
    ensures p + i < |s| && s[p + i] == t[i] == Ch(s, p + i)
  {}

  // ----- Strings -----

  /** What a character becomes when it is printed and parsed. */
  function MangleChar(c: char): string { if c == '"' then "\\\"" else if c == '\\' then "\\\\" else [c] }

  function Mangle(s: string): string {
    if s == [] then [] else MangleChar(s[0]) + Mangle(s[1..])
  }

  /** One printed character is read as its mangled self. */
  ghost predicate Reads(s: string, i: nat, c: char, end: nat) {
    && StringEnd(s, i) == StringEnd(s, i + |P.EscapeChar(c)|)
    && Decode(s, i, end) == Prepend(MangleChar(c), Decode(s, i + |P.EscapeChar(c)|, end))
  }

  lemma CharRead(s: string, i: nat, c: char, end: nat)
    requires At(s, i, P.EscapeChar(c)) && i + |P.EscapeChar(c)| <= end
    ensures Reads(s, i, c, end)
  {
    if |P.EscapeChar(c)| == 6 { SixRead(s, i, c, end); }
    else if |P.EscapeChar(c)| == 2 { TwoRead(s, i, c, end); }
    else { AtChar(s, i, [c], 0); }
  }

  lemma TwoRead(s: string, i: nat, c: char, end: nat)
    requires At(s, i, P.EscapeChar(c)) && i + 2 <= end && |P.EscapeChar(c)| == 2
    ensures Reads(s, i, c, end)
  {
    AtChar(s, i, P.EscapeChar(c), 0);
    AtChar(s, i, P.EscapeChar(c), 1);
    assert Ch(s, i) == '\\' && EscapeLength(s, i) == 2 && Replacement(Ch(s, i + 1)) == MangleChar(c);
  }

  lemma SixRead(s: string, i: nat, c: char, end: nat)
    requires At(s, i, P.EscapeChar(c)) && i + 6 <= end && |P.EscapeChar(c)| == 6
    ensures Reads(s, i, c, end)
  {
    var e := P.EscapeChar(c);
    assert e == "\\u" + P.ControlHex(c);
    AtChar(s, i, e, 0);
    AtChar(s, i, e, 1);
    AtChar(s, i, e, 2);
    AtChar(s, i, e, 3);
    AtChar(s, i, e, 4);
    AtChar(s, i, e, 5);
    ControlRead(s, i + 2, c);
    assert EscapeLength(s, i) == 6 && ToUnicode(c as int) == [c];
  }

  lemma ControlRead(s: string, i: nat, c: char)
    requires c as int < 0x20
    requires Ch(s, i) == '0' == Ch(s, i + 1) && Ch(s, i + 2) == P.HexDigit(c as int / 16) &&
        Ch(s, i + 3) == P.HexDigit(c as int % 16)
    ensures FourHex(s, i) && CodePoint(s, i) == c as int
  {
    HexRead(c as int / 16);
    HexRead(c as int % 16);
  }

  lemma HexRead(d: nat)
    requires d < 16
    ensures IsHex(P.HexDigit(d)) && HexValue(P.HexDigit(d)) == d
  {}

  /** A printed string is scanned up to its closing quote, and read with its quotes and backslashes mangled. */
  lemma {:induction false} StringRead(s: string, i: nat, t: string, end: nat)
    requires At(s, i, P.Escape(t)) && end == i + |P.Escape(t)| && Ch(s, end) == '"'
    ensures StringEnd(s, i) == Some(end + 1) && Decode(s, i, end) == Ok(Mangle(t))
    decreases t
  {
    if t != [] {
      var e := P.EscapeChar(t[0]);
      AtSplit(s, i, e, P.Escape(t[1..]));
      CharRead(s, i, t[0], end);
      StringRead(s, i + |e|, t[1..], end);
    } else {
      assert i < |s|;
    }
  }

  // ----- Numbers -----

  /** Nothing at position q continues what is before it. */
  ghost predicate StopAt(s: string, q: nat) {
    q <= |s| && (q == |s| || s[q] == ',' || s[q] == ']' || s[q] == '}' || s[q] == '\n')
  }

  lemma DigitsAreInt(n: nat)
    ensures Digits(DigitsOf(n)) && DigitsValue(DigitsOf(n)) == n && IsInt(DigitsOf(n))
  {
    DigitsRead(n);
    assert n == 0 ==> DigitsOf(n) == "0";
  }

  lemma IntIsNumber(t: string)
    requires IsInt(t)
    ensures IsNumber(t) && (t[0] != '-' ==> IsNumber("-" + t))
  {
    assert t[..|t|] == t && t[|t|..] == [];
    assert FracExp(t[|t|..], 0);
    assert IntFracExp(t, |t|);
    assert ("-" + t)[1..] == t;
  }

  lemma DecimalRead(n: int)
    requires IsInt64(RoundInt(n))
    ensures IsNumber(Decimal(n)) && NumberValue(Decimal(n)) == Ok(Int(RoundInt(n)))
    ensures IsDigit(Decimal(n)[0]) || Decimal(n)[0] == '-'
  {
    if n < 0 {
      DigitsAreInt(-n);
      IntIsNumber(DigitsOf(-n));
      assert Decimal(n)[1..] == DigitsOf(-n);
    } else {
      DigitsAreInt(n);
      IntIsNumber(DigitsOf(n));
    }
  }

  /** A printed integer is scanned as one token. */
  lemma NumberRead(s: string, p: nat, t: string)
    requires At(s, p, t) && IsNumber(t) && t != [] && StopAt(s, p + |t|)
    ensures NumberFrom(s, p) == p + |t|
  {
    var q := p + |t|;
    AtSlice(s, p, t);
    NumberFromIsLongest(s, p);
    forall f | q < f <= |s| ensures !IsNumber(s[p..f]) {
      NoLonger(s, p, q, f);
    }
    OnlyLongest(s, p, q, NumberFrom(s, p));
  }

  lemma NoLonger(s: string, p: nat, q: nat, f: nat)
    requires p < q < f <= |s| && StopAt(s, q)
    ensures !IsNumber(s[p..f])
  {
    Stops(Run(Begin, s[p..q]), s[q]);
    DeadBeyond(s, p, q, f);
  }

  lemma Stops(q: State, c: char)
    requires c == ',' || c == ']' || c == '}' || c == '\n'
    ensures Delta(q, c) == Dead
  {}

  lemma OnlyLongest(s: string, p: nat, q: nat, e: nat)
    requires p < q <= |s| && p <= e <= |s| && IsNumber(s[p..q]) && forall f :: q < f <= |s| ==> !IsNumber(s[p..f])
    requires (e > p ==> LongestNumber(s, p, e)) && (e == p ==> NoNumber(s, p))
    ensures e == q
  {}

  // ----- Values -----

  /** The integers of the value are 64-bit integers still when they have been rounded to doubles. */
  predicate IntsFit(v: Value)
    decreases v
  {
    match v
    case Int(n) => IsInt64(n) && IsInt64(RoundInt(n))
    case Arr(elems) => ElemsFit(elems)
    case Obj(members) => MembersFit(members)
    case _ => true
  }

  predicate ElemsFit(elems: seq<Value>)
    decreases elems
  {
    elems == [] || (IntsFit(elems[0]) && ElemsFit(elems[1..]))
  }

  predicate MembersFit(members: seq<Member>)
    decreases members
  {
    members == [] || (IntsFit(members[0].value) && MembersFit(members[1..]))
  }

  /** What printing and parsing makes of a value; the members of an object are inserted one by one. */
  function MangleValue(v: Value): Value
    decreases v
  {
    match v
    case Int(n) => Int(RoundInt(n))
    case Str(t) => Str(Mangle(t))
    case Arr(elems) => Arr(MangleElems(elems))
    case Obj(members) => Obj(InsertMangled([], members))
    case _ => v
  }

  function MangleMember(m: Member): Member
    decreases m
  {
    Member(Mangle(m.key), MangleValue(m.value))
  }

  function MangleElems(elems: seq<Value>): seq<Value>
    decreases elems
  {
    if elems == [] then [] else [MangleValue(elems[0])] + MangleElems(elems[1..])
  }

  function InsertMangled(into: seq<Member>, members: seq<Member>): seq<Member>
    decreases members
  {
    if members == [] then into
    else InsertMangled(Insert(into, MangleMember(members[0])), members[1..])
  }

  /** White space in front of a token makes no difference. */
  lemma {:induction false} BlankFrom(s: string, p: nat, w: string)
    requires At(s, p, w) && forall i :: 0 <= i < |w| ==> IsSpace(w[i])
    ensures TokenFrom(s, p) == TokenFrom(s, p + |w|)
    decreases w
  {
    if w != [] {
      AtChar(s, p, w, 0);
      assert w == [w[0]] + w[1..];
      AtSplit(s, p, [w[0]], w[1..]);
      BlankFrom(s, p + 1, w[1..]);
    }
  }

  /** The token a printed value begins with. */
  predicate Opens(l: Lexed, p: nat) {
    l.start == p && l.token != ValueSeparator && l.token != EndArray && l.token != EndObject
  }

  ghost predicate Scanned(s: string, tok: Tokens) { Stream(s, tok) && Scans(s, tok) }

  ghost predicate ValueOk(v: Value, s: string, tok: Tokens, p: nat, q: nat)
    requires Scanned(s, tok) && p <= |s|
  {
    Opens(tok(p), p) && ParseValue(s, tok, tok(p)) == Parsed(Ok(MangleValue(v)), tok(q))
  }

  lemma Blank(s: string, tok: Tokens, p: nat, w: string)
    requires Scanned(s, tok) && At(s, p, w) && forall i :: 0 <= i < |w| ==> IsSpace(w[i])
    ensures tok(p) == tok(p + |w|)
  {
    BlankFrom(s, p, w);
  }

  lemma WordRead(s: string, tok: Tokens, p: nat, v: Value, word: string)
    requires Scanned(s, tok)
    requires (v.Null? && word == "null") || (v.Bool? && word == if v.b then "true" else "false")
    requires At(s, p, word)
    ensures ValueOk(v, s, tok, p, p + |word|)
  {
    hide Decode, NumberFrom, StringEnd, ParseElems, ParseMembers;
    AtChar(s, p, word, 0);
    var t := if v.Null? then LiteralNull else if v.b then LiteralTrue else LiteralFalse;
    assert TokenFrom(s, p) == Lexed(t, p, p + |word|);
  }

  lemma IntToken(s: string, tok: Tokens, p: nat, n: int)
    requires Scanned(s, tok)
    requires IsInt64(RoundInt(n)) && At(s, p, Decimal(n)) && StopAt(s, p + |Decimal(n)|)
    ensures tok(p) == Lexed(ValueNumber, p, p + |Decimal(n)|)
    ensures NumberValue(Decimal(n)) == Ok(Int(RoundInt(n)))
  {
    DecimalRead(n);
    AtChar(s, p, Decimal(n), 0);
    NumberRead(s, p, Decimal(n));
    NumberTokenAt(s, tok, p, p + |Decimal(n)|);
  }

  lemma NumberTokenAt(s: string, tok: Tokens, p: nat, q: nat)
    requires Scanned(s, tok)
    requires p < |s| && (IsDigit(s[p]) || s[p] == '-') && NumberFrom(s, p) == q > p
    ensures tok(p) == Lexed(ValueNumber, p, q)
  {
    assert TokenFrom(s, p) == Lexed(ValueNumber, p, q);
  }

  lemma StringTokenAt(s: string, tok: Tokens, p: nat, q: nat)
    requires Scanned(s, tok)
    requires p < |s| && s[p] == '"' && StringEnd(s, p + 1) == Some(q)
    ensures tok(p) == Lexed(ValueString, p, q)
  {
    assert TokenFrom(s, p) == Lexed(ValueString, p, q);
  }

  lemma IntRead(s: string, tok: Tokens, p: nat, n: int)
    requires Scanned(s, tok)
    requires IsInt64(RoundInt(n)) && At(s, p, Decimal(n)) && StopAt(s, p + |Decimal(n)|)
    ensures ValueOk(Int(n), s, tok, p, p + |Decimal(n)|)
  {
    hide Decimal, NumberValue;
    IntToken(s, tok, p, n);
    AtSlice(s, p, Decimal(n));
    NumberParsed(s, tok, tok(p), Decimal(n), Int(RoundInt(n)));
  }

  lemma NumberParsed(s: string, tok: Tokens, l: Lexed, text: string, v: Value)
    requires Scanned(s, tok)
    requires Fits(s, l) && l.token == ValueNumber && l.cursor <= |s| && s[l.start..l.cursor] == text
    requires NumberValue(text) == Ok(v)
    ensures ParseValue(s, tok, l) == Parsed(Ok(v), tok(l.cursor))
  {
    hide Decode, NumberValue, ParseElems, ParseMembers, TokenFrom;
  }

  lemma StringParsed(s: string, tok: Tokens, l: Lexed, t: string)
    requires Scanned(s, tok)
    requires Fits(s, l) && l.token == ValueString && l.cursor <= |s| && Decode(s, l.start + 1, l.cursor - 1) == Ok(t)
    ensures ParseValue(s, tok, l) == Parsed(Ok(Str(t)), tok(l.cursor))
  {
    hide Decode, NumberValue, ParseElems, ParseMembers, TokenFrom;
  }

  function Quoted(t: string): string { "\"" + P.Escape(t) + "\"" }

  /** A printed string, with its quotes. */
  lemma QuotedRead(s: string, tok: Tokens, p: nat, t: string, q: nat)
    requires Scanned(s, tok)
    requires At(s, p, Quoted(t)) && q == p + |Quoted(t)|
    ensures p + 2 <= q <= |s| && tok(p) == Lexed(ValueString, p, q) && Decode(s, p + 1, q - 1) == Ok(Mangle(t))
  {
    QuotedLayout(s, p, t, q);
    StringRead(s, p + 1, t, q - 1);
    StringTokenAt(s, tok, p, q);
  }

  lemma QuotedLayout(s: string, p: nat, t: string, q: nat)
    requires At(s, p, Quoted(t)) && q == p + |Quoted(t)|
    ensures p + 2 <= q <= |s| && s[p] == '"' && q - 1 == p + 1 + |P.Escape(t)|
    ensures At(s, p + 1, P.Escape(t)) && Ch(s, q - 1) == '"'
  {
    var e := P.Escape(t);
    AtSplit(s, p, "\"" + e, "\"");
    AtSplit(s, p, "\"", e);
    AtChar(s, p, "\"", 0);
    AtChar(s, p + |e| + 1, "\"", 0);
  }

  lemma StrRead(s: string, tok: Tokens, p: nat, t: string, q: nat)
    requires Scanned(s, tok)
    requires At(s, p, Quoted(t)) && q == p + |Quoted(t)|
    ensures q <= |s| && ValueOk(Str(t), s, tok, p, q)
  {
    QuotedRead(s, tok, p, t, q);
    StringParsed(s, tok, tok(p), Mangle(t));
  }

  /** A bracket or separator at p. */
  lemma MarkRead(s: string, tok: Tokens, p: nat, c: char)
    requires Scanned(s, tok)
    requires At(s, p, [c]) && (c == '[' || c == ']' || c == '{' || c == '}' || c == ',' || c == ':')
    ensures p < |s|
    ensures tok(p) == Lexed(
      if c == '[' then BeginArray else if c == ']' then EndArray else if c == '{' then BeginObject
      else if c == '}' then EndObject else if c == ',' then ValueSeparator else NameSeparator, p, p + 1)
  {
    AtChar(s, p, [c], 0);
    assert TokenFrom(s, p).start == p;
  }

  /** The end of a container. */
  lemma ClosingRead(s: string, tok: Tokens, q: nat, style: P.Style, indent: nat, c: char)
    requires Scanned(s, tok)
    requires At(s, q, P.Closing(style, indent, c)) && (c == ']' || c == '}')
    ensures var e := q + |P.Closing(style, indent, c)|;
      && 0 < e <= |s| && StopAt(s, q)
      && tok(q) == Lexed(if c == ']' then EndArray else EndObject, e - 1, e)
  {
    var w := P.NewLine(style) + P.Spaces(style, indent);
    AtSplit(s, q, w, [c]);
    Blank(s, tok, q, w);
    MarkRead(s, tok, q + |w|, c);
    AtChar(s, q, P.Closing(style, indent, c), 0);
  }

  /** A comma between elements or members, and the new line after it. */
  lemma CommaRead(s: string, tok: Tokens, r: nat, style: P.Style)
    requires Scanned(s, tok)
    requires At(s, r, P.Comma(style))
    ensures r + 1 <= |s| && StopAt(s, r) && tok(r) == Lexed(ValueSeparator, r, r + 1)
    ensures r + |P.Comma(style)| <= |s| && tok(r + 1) == tok(r + |P.Comma(style)|)
  {
    AtSplit(s, r, ",", P.NewLine(style));
    MarkRead(s, tok, r, ',');
    Blank(s, tok, r + 1, P.NewLine(style));
    AtChar(s, r, ",", 0);
  }

  // ----- Containers -----

  /** A printed value is read as its mangled self, up to the position after it. */
  lemma {:induction false} ValueRead(v: Value, style: P.Style, indent: nat, s: string, tok: Tokens, p: nat, q: nat)
    requires Scanned(s, tok)
    requires FloatFree(v) && IntsFit(v) && At(s, p, P.Dump(v, style, indent)) && q == p + |P.Dump(v, style, indent)|
    requires StopAt(s, q)
    ensures ValueOk(v, s, tok, p, q)
    decreases v, 1
  {
    hide P.DumpElems, P.DumpMembers, P.Escape, Decimal, ParseValue, MangleElems, InsertMangled;
    match v
    case Null => WordRead(s, tok, p, v, "null");
    case Bool(b) => WordRead(s, tok, p, v, if b then "true" else "false");
    case Int(n) => IntRead(s, tok, p, n);
    case Str(t) => StrRead(s, tok, p, t, q);
    case Arr(elems) => ArrayRead(elems, style, indent, s, tok, p, q);
    case Obj(members) => ObjectRead(members, style, indent, s, tok, p, q);
    case Float(_) =>
  }

  /** Where the parts of a printed container are. */
  lemma Layout(s: string, tok: Tokens, p: nat, c: char, style: P.Style, inside: string, closing: string)
    requires Scanned(s, tok)
    requires At(s, p, [c] + P.NewLine(style) + inside + closing)
    requires c == '[' || c == '{'
    ensures var a := p + 1 + |P.NewLine(style)|;
      && p + 1 <= a <= |s| && tok(p) == Lexed(if c == '[' then BeginArray else BeginObject, p, p + 1)
      && tok(p + 1) == tok(a) && At(s, a, inside) && At(s, a + |inside|, closing)
  {
    AtSplit(s, p, [c] + P.NewLine(style) + inside, closing);
    AtSplit(s, p, [c] + P.NewLine(style), inside);
    AtSplit(s, p, [c], P.NewLine(style));
    MarkRead(s, tok, p, c);
    Blank(s, tok, p + 1, P.NewLine(style));
  }

  lemma {:induction false} ArrayRead(
    elems: seq<Value>, style: P.Style, indent: nat, s: string, tok: Tokens, p: nat, q: nat)
    requires Scanned(s, tok)
    requires ElemsFloatFree(elems) && ElemsFit(elems) && StopAt(s, q)
    requires At(s, p, P.Dump(Arr(elems), style, indent)) && q == p + |P.Dump(Arr(elems), style, indent)|
    ensures ValueOk(Arr(elems), s, tok, p, q)
    decreases elems, 4
  {
    if elems == [] {
      EmptyRead(s, tok, p, '[', ']');
    } else {
      var a := ArrayLayout(elems, style, indent, s, tok, p, q);
      ElemsRead(elems, style, P.Inner(style, indent), indent, s, tok, a, [], tok(a), q);
      ElemsWhole(s, tok, p, a, q, elems);
    }
  }

  lemma ElemsWhole(s: string, tok: Tokens, p: nat, a: nat, q: nat, elems: seq<Value>)
    requires Scanned(s, tok) && p + 1 <= a <= |s| && tok(p) == Lexed(BeginArray, p, p + 1) && tok(p + 1) == tok(a)
    requires tok(a).token != EndArray
    requires ParseElems(s, tok, tok(a), []) == Parsed(Ok(Arr([] + MangleElems(elems))), tok(q))
    ensures ValueOk(Arr(elems), s, tok, p, q)
  {
    assert [] + MangleElems(elems) == MangleElems(elems);
  }

  lemma ArrayLayout(
    elems: seq<Value>, style: P.Style, indent: nat, s: string, tok: Tokens, p: nat, q: nat) returns (a: nat)
    requires Scanned(s, tok) && elems != [] && ElemsFloatFree(elems)
    requires At(s, p, P.Dump(Arr(elems), style, indent)) && q == p + |P.Dump(Arr(elems), style, indent)|
    ensures p + 1 <= a <= |s| && tok(p) == Lexed(BeginArray, p, p + 1) && tok(p + 1) == tok(a)
    ensures At(s, a, P.DumpElems(elems, style, P.Inner(style, indent)))
    ensures At(s, a + |P.DumpElems(elems, style, P.Inner(style, indent))|, P.Closing(style, indent, ']'))
    ensures q == a + |P.DumpElems(elems, style, P.Inner(style, indent))| + |P.Closing(style, indent, ']')|
  {
    var inside := P.DumpElems(elems, style, P.Inner(style, indent));
    Layout(s, tok, p, '[', style, inside, P.Closing(style, indent, ']'));
    a := p + 1 + |P.NewLine(style)|;
  }

  lemma EmptyRead(s: string, tok: Tokens, p: nat, open: char, close: char)
    requires Scanned(s, tok)
    requires At(s, p, [open, close]) && ((open == '[' && close == ']') || (open == '{' && close == '}'))
    ensures p + 2 <= |s| && ValueOk(if open == '[' then Arr([]) else Obj([]), s, tok, p, p + 2)
  {
    assert [open, close] == [open] + [close];
    AtSplit(s, p, [open], [close]);
    MarkRead(s, tok, p, open);
    MarkRead(s, tok, p + 1, close);
  }

  /** A comma and what follows it. */
  lemma NextRead(s: string, tok: Tokens, r: nat, style: P.Style, rest: string)
    requires Scanned(s, tok) && At(s, r, P.Comma(style) + rest)
    ensures StopAt(s, r) && r + |P.Comma(style)| <= |s| && At(s, r + |P.Comma(style)|, rest)
    ensures tok(r) == Lexed(ValueSeparator, r, r + 1) && tok(r + 1) == tok(r + |P.Comma(style)|)
  {
    AtSplit(s, r, P.Comma(style), rest);
    CommaRead(s, tok, r, style);
  }

  lemma {:induction false} ElemsRead(
    elems: seq<Value>, style: P.Style, indent: nat, outer: nat, s: string, tok: Tokens, a: nat, done: seq<Value>,
    l: Lexed,
    e: nat)
    requires Scanned(s, tok)
    requires elems != [] && ElemsFloatFree(elems) && ElemsFit(elems) && a <= |s| && Fits(s, l)
    requires At(s, a, P.DumpElems(elems, style, indent))
    requires At(s, a + |P.DumpElems(elems, style, indent)|, P.Closing(style, outer, ']'))
    requires e == a + |P.DumpElems(elems, style, indent)| + |P.Closing(style, outer, ']')|
    requires l == tok(a) || (l.token == ValueSeparator && tok(l.cursor) == tok(a))
    ensures e <= |s| && ParseElems(s, tok, l, done) == Parsed(Ok(Arr(done + MangleElems(elems))), tok(e))
    ensures tok(a).token != EndArray && tok(a).token != ValueSeparator
    decreases elems, 3
  {
    if elems[1..] == [] {
      LastElemRead(elems, style, indent, outer, s, tok, a, done, l, e);
    } else {
      FirstElemRead(elems, style, indent, outer, s, tok, a, done, l, e);
    }
  }

  lemma {:induction false} LastElemRead(
    elems: seq<Value>, style: P.Style, indent: nat, outer: nat, s: string, tok: Tokens, a: nat, done: seq<Value>,
    l: Lexed,
    e: nat)
    requires Scanned(s, tok)
    requires elems != [] && ElemsFloatFree(elems) && ElemsFit(elems) && a <= |s| && Fits(s, l) && elems[1..] == []
    requires At(s, a, P.DumpElems(elems, style, indent))
    requires At(s, a + |P.DumpElems(elems, style, indent)|, P.Closing(style, outer, ']'))
    requires e == a + |P.DumpElems(elems, style, indent)| + |P.Closing(style, outer, ']')|
    requires l == tok(a) || (l.token == ValueSeparator && tok(l.cursor) == tok(a))
    ensures e <= |s| && ParseElems(s, tok, l, done) == Parsed(Ok(Arr(done + MangleElems(elems))), tok(e))
    ensures tok(a).token != EndArray && tok(a).token != ValueSeparator
    decreases elems, 2
  {
    var b, r := LastLayout(elems, style, indent, outer, s, tok, a, e);
    ValueRead(elems[0], style, indent, s, tok, b, r);
    LastElem(s, tok, l, b, r, done, elems, e);
  }

  lemma {:induction false} FirstElemRead(
    elems: seq<Value>, style: P.Style, indent: nat, outer: nat, s: string, tok: Tokens, a: nat, done: seq<Value>,
    l: Lexed,
    e: nat)
    requires Scanned(s, tok)
    requires elems != [] && ElemsFloatFree(elems) && ElemsFit(elems) && a <= |s| && Fits(s, l) && elems[1..] != []
    requires At(s, a, P.DumpElems(elems, style, indent))
    requires At(s, a + |P.DumpElems(elems, style, indent)|, P.Closing(style, outer, ']'))
    requires e == a + |P.DumpElems(elems, style, indent)| + |P.Closing(style, outer, ']')|
    requires l == tok(a) || (l.token == ValueSeparator && tok(l.cursor) == tok(a))
    ensures e <= |s| && ParseElems(s, tok, l, done) == Parsed(Ok(Arr(done + MangleElems(elems))), tok(e))
    ensures tok(a).token != EndArray && tok(a).token != ValueSeparator
    decreases elems, 2
  {
    hide P.Dump, P.DumpElems, ParseElems, ParseValue, AfterElems;
    var b, r, n := NextLayout(elems, style, indent, outer, s, tok, a, e);
    ValueRead(elems[0], style, indent, s, tok, b, r);
    ElemsRead(elems[1..], style, indent, outer, s, tok, n, done + [MangleValue(elems[0])], tok(r), e);
    NextElem(s, tok, l, b, r, done, elems, e);
  }

  /** Where the last element is. */
  lemma LastLayout(elems: seq<Value>, style: P.Style, indent: nat, outer: nat, s: string, tok: Tokens, a: nat, e: nat)
    returns (b: nat, r: nat)
    requires Scanned(s, tok)
    requires elems != [] && elems[1..] == [] && ElemsFloatFree(elems)
    requires At(s, a, P.DumpElems(elems, style, indent))
    requires At(s, a + |P.DumpElems(elems, style, indent)|, P.Closing(style, outer, ']'))
    requires e == a + |P.DumpElems(elems, style, indent)| + |P.Closing(style, outer, ']')|
    ensures b <= |s| && r <= |s| && 0 < e <= |s| && tok(a) == tok(b) && tok(r) == Lexed(EndArray, e - 1, e)
    ensures At(s, b, P.Dump(elems[0], style, indent)) && r == b + |P.Dump(elems[0], style, indent)| && StopAt(s, r)
  {
    b, r := ElemLayout(elems, style, indent, s, a);
    Blank(s, tok, a, P.Spaces(style, indent));
    ClosingRead(s, tok, r, style, outer, ']');
  }

  /** Where the first of several elements is, and the next. */
  lemma NextLayout(elems: seq<Value>, style: P.Style, indent: nat, outer: nat, s: string, tok: Tokens, a: nat, e: nat)
    returns (b: nat, r: nat, n: nat)
    requires Scanned(s, tok)
    requires elems != [] && elems[1..] != [] && ElemsFloatFree(elems)
    requires At(s, a, P.DumpElems(elems, style, indent))
    requires At(s, a + |P.DumpElems(elems, style, indent)|, P.Closing(style, outer, ']'))
    requires e == a + |P.DumpElems(elems, style, indent)| + |P.Closing(style, outer, ']')|
    ensures b <= |s| && r <= |s| && n <= |s| && tok(a) == tok(b)
    ensures tok(r) == Lexed(ValueSeparator, r, r + 1) && r + 1 <= |s| && tok(r + 1) == tok(n)
    ensures At(s, b, P.Dump(elems[0], style, indent)) && r == b + |P.Dump(elems[0], style, indent)| && StopAt(s, r)
    ensures At(s, n, P.DumpElems(elems[1..], style, indent))
    ensures At(s, n + |P.DumpElems(elems[1..], style, indent)|, P.Closing(style, outer, ']'))
    ensures e == n + |P.DumpElems(elems[1..], style, indent)| + |P.Closing(style, outer, ']')|
  {
    b, r := ElemLayout(elems, style, indent, s, a);
    Blank(s, tok, a, P.Spaces(style, indent));
    NextRead(s, tok, r, style, P.DumpElems(elems[1..], style, indent));
    n := r + |P.Comma(style)|;
  }

  lemma LastElem(s: string, tok: Tokens, l: Lexed, b: nat, r: nat, done: seq<Value>, elems: seq<Value>, e: nat)
    requires Scanned(s, tok) && Fits(s, l) && elems != [] && elems[1..] == [] && b <= |s| && r <= |s|
    requires ValueOk(elems[0], s, tok, b, r) && 0 < e <= |s| && tok(r) == Lexed(EndArray, e - 1, e)
    requires l == tok(b) || (l.token == ValueSeparator && tok(l.cursor) == tok(b))
    ensures ParseElems(s, tok, l, done) == Parsed(Ok(Arr(done + MangleElems(elems))), tok(e))
  {
    OneParsed(s, tok, l, b, r, done, MangleValue(elems[0]));
    assert MangleElems(elems) == [MangleValue(elems[0])];
  }

  lemma NextElem(s: string, tok: Tokens, l: Lexed, b: nat, r: nat, done: seq<Value>, elems: seq<Value>, e: nat)
    requires Scanned(s, tok) && Fits(s, l) && elems != [] && b <= |s| && r <= |s|
    requires ValueOk(elems[0], s, tok, b, r) && tok(r).token == ValueSeparator
    requires l == tok(b) || (l.token == ValueSeparator && tok(l.cursor) == tok(b))
    requires ParseElems(s, tok, tok(r), done + [MangleValue(elems[0])])
      == Parsed(Ok(Arr(done + [MangleValue(elems[0])] + MangleElems(elems[1..]))), tok(e))
    ensures ParseElems(s, tok, l, done) == Parsed(Ok(Arr(done + MangleElems(elems))), tok(e))
  {
    OneParsed(s, tok, l, b, r, done, MangleValue(elems[0]));
    assert done + [MangleValue(elems[0])] + MangleElems(elems[1..]) == done + MangleElems(elems);
  }

  /** Where the first element is, and what follows it. */
  lemma ElemLayout(elems: seq<Value>, style: P.Style, indent: nat, s: string, a: nat) returns (b: nat, r: nat)
    requires elems != [] && ElemsFloatFree(elems)
    requires At(s, a, P.DumpElems(elems, style, indent))
    ensures b == a + |P.Spaces(style, indent)| && r == b + |P.Dump(elems[0], style, indent)|
    ensures At(s, a, P.Spaces(style, indent)) && At(s, b, P.Dump(elems[0], style, indent))
    ensures elems[1..] == [] ==> a + |P.DumpElems(elems, style, indent)| == r
    ensures elems[1..] != [] ==>
      var rest := P.DumpElems(elems[1..], style, indent);
      && At(s, r, P.Comma(style) + rest)
      && a + |P.DumpElems(elems, style, indent)| == r + |P.Comma(style)| + |rest|
  {
    var blank, one := P.Spaces(style, indent), P.Dump(elems[0], style, indent);
    var more := P.DumpMoreElems(elems[1..], style, indent);
    AtSplit(s, a, blank + one, more);
    AtSplit(s, a, blank, one);
    b, r := a + |blank|, a + |blank| + |one|;
  }

  /** One turn of the loop for elements. */
  lemma OneParsed(s: string, tok: Tokens, l: Lexed, b: nat, r: nat, done: seq<Value>, m: Value)
    requires Scanned(s, tok)
    requires Fits(s, l) && b <= |s| && r <= |s| && Fits(s, tok(b)) && Fits(s, tok(r))
    requires Opens(tok(b), b) && ParseValue(s, tok, tok(b)) == Parsed(Ok(m), tok(r))
    requires l == tok(b) || (l.token == ValueSeparator && tok(l.cursor) == tok(b))
    ensures ParseElems(s, tok, l, done) ==
      if tok(r).token == ValueSeparator then ParseElems(s, tok, tok(r), done + [m])
      else AfterElems(s, tok, done + [m], tok(r))
  {
    assert SkipSeparator(s, tok, l) == tok(b);
  }

  lemma {:induction false} ObjectRead(
    members: seq<Member>, style: P.Style, indent: nat, s: string, tok: Tokens, p: nat, q: nat)
    requires Scanned(s, tok)
    requires MembersFloatFree(members) && MembersFit(members) && StopAt(s, q)
    requires At(s, p, P.Dump(Obj(members), style, indent)) && q == p + |P.Dump(Obj(members), style, indent)|
    ensures ValueOk(Obj(members), s, tok, p, q)
    decreases members, 4
  {
    hide P.DumpMembers, P.Closing, ParseMembers, ParseValue, Decode, TokenFrom;
    if members == [] {
      EmptyRead(s, tok, p, '{', '}');
    } else {
      hide InsertMangled;
      var a := ObjectLayout(members, style, indent, s, tok, p, q);
      MembersRead(members, style, P.Inner(style, indent), indent, s, tok, a, [], tok(a), q);
      MembersWhole(s, tok, p, a, q, members);
    }
  }

  lemma MembersWhole(s: string, tok: Tokens, p: nat, a: nat, q: nat, members: seq<Member>)
    requires Scanned(s, tok) && p + 1 <= a <= |s| && tok(p) == Lexed(BeginObject, p, p + 1) && tok(p + 1) == tok(a)
    requires tok(a).token != EndObject
    requires ParseMembers(s, tok, tok(a), []) == Parsed(Ok(Obj(InsertMangled([], members))), tok(q))
    ensures ValueOk(Obj(members), s, tok, p, q)
  {}

  lemma ObjectLayout(
    members: seq<Member>, style: P.Style, indent: nat, s: string, tok: Tokens, p: nat, q: nat) returns (a: nat)
    requires Scanned(s, tok) && members != [] && MembersFloatFree(members)
    requires At(s, p, P.Dump(Obj(members), style, indent)) && q == p + |P.Dump(Obj(members), style, indent)|
    ensures p + 1 <= a <= |s| && tok(p) == Lexed(BeginObject, p, p + 1) && tok(p + 1) == tok(a)
    ensures At(s, a, P.DumpMembers(members, style, P.Inner(style, indent)))
    ensures At(s, a + |P.DumpMembers(members, style, P.Inner(style, indent))|, P.Closing(style, indent, '}'))
    ensures q == a + |P.DumpMembers(members, style, P.Inner(style, indent))| + |P.Closing(style, indent, '}')|
  {
    var inside := P.DumpMembers(members, style, P.Inner(style, indent));
    Layout(s, tok, p, '{', style, inside, P.Closing(style, indent, '}'));
    a := p + 1 + |P.NewLine(style)|;
  }

  lemma {:induction false} MembersRead(
    members: seq<Member>, style: P.Style, indent: nat, outer: nat, s: string, tok: Tokens, a: nat, done: seq<Member>,
    l: Lexed,
    e: nat)
    requires Scanned(s, tok)
    requires members != [] && MembersFloatFree(members) && MembersFit(members) && a <= |s| && Fits(s, l)
    requires At(s, a, P.DumpMembers(members, style, indent))
    requires At(s, a + |P.DumpMembers(members, style, indent)|, P.Closing(style, outer, '}'))
    requires e == a + |P.DumpMembers(members, style, indent)| + |P.Closing(style, outer, '}')|
    requires l == tok(a) || (l.token == ValueSeparator && tok(l.cursor) == tok(a))
    ensures e <= |s| && ParseMembers(s, tok, l, done) == Parsed(Ok(Obj(InsertMangled(done, members))), tok(e))
    ensures tok(a).token != EndObject && tok(a).token != ValueSeparator
    decreases members, 3
  {
    if members[1..] == [] {
      LastMemberRead(members, style, indent, outer, s, tok, a, done, l, e);
    } else {
      FirstMemberRead(members, style, indent, outer, s, tok, a, done, l, e);
    }
  }

  lemma {:induction false} LastMemberRead(
    members: seq<Member>, style: P.Style, indent: nat, outer: nat, s: string, tok: Tokens, a: nat, done: seq<Member>,
    l: Lexed,
    e: nat)
    requires Scanned(s, tok)
    requires members != [] && MembersFloatFree(members) && MembersFit(members) && a <= |s| && Fits(s, l)
    requires members[1..] == []
    requires At(s, a, P.DumpMembers(members, style, indent))
    requires At(s, a + |P.DumpMembers(members, style, indent)|, P.Closing(style, outer, '}'))
    requires e == a + |P.DumpMembers(members, style, indent)| + |P.Closing(style, outer, '}')|
    requires l == tok(a) || (l.token == ValueSeparator && tok(l.cursor) == tok(a))
    ensures e <= |s| && ParseMembers(s, tok, l, done) == Parsed(Ok(Obj(InsertMangled(done, members))), tok(e))
    ensures tok(a).token != EndObject && tok(a).token != ValueSeparator
    decreases members, 2
  {
    var b, c, d, r := LastMemberLayout(members, style, indent, outer, s, tok, a, e);
    ValueRead(members[0].value, style, indent, s, tok, d, r);
    LastMember(s, tok, l, b, c, d, r, done, members, e);
  }

  lemma {:induction false} FirstMemberRead(
    members: seq<Member>, style: P.Style, indent: nat, outer: nat, s: string, tok: Tokens, a: nat, done: seq<Member>,
    l: Lexed,
    e: nat)
    requires Scanned(s, tok)
    requires members != [] && MembersFloatFree(members) && MembersFit(members) && a <= |s| && Fits(s, l)
    requires members[1..] != []
    requires At(s, a, P.DumpMembers(members, style, indent))
    requires At(s, a + |P.DumpMembers(members, style, indent)|, P.Closing(style, outer, '}'))
    requires e == a + |P.DumpMembers(members, style, indent)| + |P.Closing(style, outer, '}')|
    requires l == tok(a) || (l.token == ValueSeparator && tok(l.cursor) == tok(a))
    ensures e <= |s| && ParseMembers(s, tok, l, done) == Parsed(Ok(Obj(InsertMangled(done, members))), tok(e))
    ensures tok(a).token != EndObject && tok(a).token != ValueSeparator
    decreases members, 2
  {
    hide P.Dump, P.DumpMembers, ParseMembers, ParseValue, ParseMember, Insert;
    var r, n := OneMemberRead(members, style, indent, outer, s, tok, a, done, l, e);
    MembersRead(members[1..], style, indent, outer, s, tok, n, Insert(done, MangleMember(members[0])), tok(r), e);
  }

  /** One of several members is read and inserted; the others are left. */
  lemma {:induction false} OneMemberRead(
    members: seq<Member>, style: P.Style, indent: nat, outer: nat, s: string, tok: Tokens, a: nat, done: seq<Member>,
    l: Lexed,
    e: nat) returns (r: nat, n: nat)
    requires Scanned(s, tok)
    requires members != [] && MembersFloatFree(members) && MembersFit(members) && a <= |s| && Fits(s, l)
    requires members[1..] != []
    requires At(s, a, P.DumpMembers(members, style, indent))
    requires At(s, a + |P.DumpMembers(members, style, indent)|, P.Closing(style, outer, '}'))
    requires e == a + |P.DumpMembers(members, style, indent)| + |P.Closing(style, outer, '}')|
    requires l == tok(a) || (l.token == ValueSeparator && tok(l.cursor) == tok(a))
    ensures r <= |s| && n <= |s| && Fits(s, tok(r)) && tok(r) == Lexed(ValueSeparator, r, r + 1) && tok(r + 1) == tok(n)
    ensures ParseMembers(s, tok, l, done) == ParseMembers(s, tok, tok(r), Insert(done, MangleMember(members[0])))
    ensures tok(a).token != EndObject && tok(a).token != ValueSeparator
    ensures At(s, n, P.DumpMembers(members[1..], style, indent))
    ensures At(s, n + |P.DumpMembers(members[1..], style, indent)|, P.Closing(style, outer, '}'))
    ensures e == n + |P.DumpMembers(members[1..], style, indent)| + |P.Closing(style, outer, '}')|
    decreases members, 1
  {
    var b, c, d;
    b, c, d, r, n := NextMemberLayout(members, style, indent, outer, s, tok, a, e);
    ValueRead(members[0].value, style, indent, s, tok, d, r);
    NextMember(s, tok, l, b, c, d, r, done, members[0]);
  }

  /** Where the key and the value of the last member are. */
  lemma LastMemberLayout(
    members: seq<Member>, style: P.Style, indent: nat, outer: nat, s: string, tok: Tokens, a: nat, e: nat)
    returns (b: nat, c: nat, d: nat, r: nat)
    requires Scanned(s, tok)
    requires members != [] && members[1..] == [] && MembersFloatFree(members)
    requires At(s, a, P.DumpMembers(members, style, indent))
    requires At(s, a + |P.DumpMembers(members, style, indent)|, P.Closing(style, outer, '}'))
    requires e == a + |P.DumpMembers(members, style, indent)| + |P.Closing(style, outer, '}')|
    ensures b <= |s| && d <= |s| && r <= |s| && 0 < e <= |s| && tok(a) == tok(b) && tok(r) == Lexed(EndObject, e - 1, e)
    ensures KeyOk(members[0].key, s, tok, b, c, d)
    ensures At(s, d, P.Dump(members[0].value, style, indent)) && r == d + |P.Dump(members[0].value, style, indent)|
    ensures StopAt(s, r)
  {
    b, c, d, r := MemberTokens(members, style, indent, s, tok, a);
    ClosingRead(s, tok, r, style, outer, '}');
  }

  /** Where the key and the value of the first of several members are, and the next member. */
  lemma NextMemberLayout(
    members: seq<Member>, style: P.Style, indent: nat, outer: nat, s: string, tok: Tokens, a: nat, e: nat)
    returns (b: nat, c: nat, d: nat, r: nat, n: nat)
    requires Scanned(s, tok)
    requires members != [] && members[1..] != [] && MembersFloatFree(members)
    requires At(s, a, P.DumpMembers(members, style, indent))
    requires At(s, a + |P.DumpMembers(members, style, indent)|, P.Closing(style, outer, '}'))
    requires e == a + |P.DumpMembers(members, style, indent)| + |P.Closing(style, outer, '}')|
    ensures b <= |s| && d <= |s| && r <= |s| && n <= |s| && tok(a) == tok(b)
    ensures tok(r) == Lexed(ValueSeparator, r, r + 1) && r + 1 <= |s| && tok(r + 1) == tok(n)
    ensures KeyOk(members[0].key, s, tok, b, c, d)
    ensures At(s, d, P.Dump(members[0].value, style, indent)) && r == d + |P.Dump(members[0].value, style, indent)|
    ensures StopAt(s, r)
    ensures At(s, n, P.DumpMembers(members[1..], style, indent))
    ensures At(s, n + |P.DumpMembers(members[1..], style, indent)|, P.Closing(style, outer, '}'))
    ensures e == n + |P.DumpMembers(members[1..], style, indent)| + |P.Closing(style, outer, '}')|
  {
    hide P.Dump, P.DumpKey, KeyOk;
    b, c, d, r := MemberTokens(members, style, indent, s, tok, a);
    NextRead(s, tok, r, style, P.DumpMembers(members[1..], style, indent));
    n := r + |P.Comma(style)|;
  }

  lemma LastMember(
    s: string, tok: Tokens, l: Lexed, b: nat, c: nat, d: nat, r: nat, done: seq<Member>, members: seq<Member>, e: nat)
    requires Scanned(s, tok) && Fits(s, l) && members != [] && members[1..] == [] && d <= |s| && r <= |s|
    requires KeyOk(members[0].key, s, tok, b, c, d) && ValueOk(members[0].value, s, tok, d, r)
    requires 0 < e <= |s| && tok(r) == Lexed(EndObject, e - 1, e)
    requires l == tok(b) || (l.token == ValueSeparator && tok(l.cursor) == tok(b))
    ensures ParseMembers(s, tok, l, done) == Parsed(Ok(Obj(InsertMangled(done, members))), tok(e))
  {
    MemberParsed(s, tok, b, c, d, MangleMember(members[0]), tok(r));
    PairParsed(s, tok, l, b, r, done, MangleMember(members[0]));
  }

  lemma NextMember(s: string, tok: Tokens, l: Lexed, b: nat, c: nat, d: nat, r: nat, done: seq<Member>, m: Member)
    requires Scanned(s, tok) && Fits(s, l) && d <= |s| && r <= |s|
    requires KeyOk(m.key, s, tok, b, c, d) && ValueOk(m.value, s, tok, d, r)
    requires tok(r).token == ValueSeparator
    requires l == tok(b) || (l.token == ValueSeparator && tok(l.cursor) == tok(b))
    ensures Opens(tok(b), b)
    ensures ParseMembers(s, tok, l, done) == ParseMembers(s, tok, tok(r), Insert(done, MangleMember(m)))
  {
    MemberParsed(s, tok, b, c, d, MangleMember(m), tok(r));
    PairParsed(s, tok, l, b, r, done, MangleMember(m));
  }

  /** Where the key and the value of the first member are, and what follows it. */
  lemma MemberTokens(members: seq<Member>, style: P.Style, indent: nat, s: string, tok: Tokens, a: nat)
    returns (b: nat, c: nat, d: nat, r: nat)
    requires Scanned(s, tok)
    requires members != [] && MembersFloatFree(members)
    requires At(s, a, P.DumpMembers(members, style, indent))
    ensures b <= |s| && d <= |s| && r <= |s| && tok(a) == tok(b) && KeyOk(members[0].key, s, tok, b, c, d)
    ensures At(s, d, P.Dump(members[0].value, style, indent)) && r == d + |P.Dump(members[0].value, style, indent)|
    ensures members[1..] == [] ==> a + |P.DumpMembers(members, style, indent)| == r
    ensures members[1..] != [] ==>
      var rest := P.DumpMembers(members[1..], style, indent);
      && At(s, r, P.Comma(style) + rest)
      && a + |P.DumpMembers(members, style, indent)| == r + |P.Comma(style)| + |rest|
  {
    b, d, r := MemberLayout(members, style, indent, s, a);
    c := KeyTokens(s, tok, b, members[0].key, style, d);
    Blank(s, tok, a, P.Spaces(style, indent));
  }

  /** Where the first member and its value are, and what follows it. */
  lemma MemberLayout(
    members: seq<Member>, style: P.Style, indent: nat, s: string, a: nat) returns (b: nat, d: nat, r: nat)
    requires members != [] && MembersFloatFree(members)
    requires At(s, a, P.DumpMembers(members, style, indent))
    ensures b == a + |P.Spaces(style, indent)| && d == b + |P.DumpKey(members[0].key, style)|
    ensures r == d + |P.Dump(members[0].value, style, indent)|
    ensures At(s, a, P.Spaces(style, indent)) && At(s, b, P.DumpKey(members[0].key, style))
    ensures At(s, d, P.Dump(members[0].value, style, indent))
    ensures members[1..] == [] ==> a + |P.DumpMembers(members, style, indent)| == r
    ensures members[1..] != [] ==>
      var rest := P.DumpMembers(members[1..], style, indent);
      && At(s, r, P.Comma(style) + rest)
      && a + |P.DumpMembers(members, style, indent)| == r + |P.Comma(style)| + |rest|
  {
    var blank, more := P.Spaces(style, indent), P.DumpMoreMembers(members[1..], style, indent);
    var key, one := P.DumpKey(members[0].key, style), P.Dump(members[0].value, style, indent);
    AtSplit(s, a, blank + (key + one), more);
    AtSplit(s, a, blank, key + one);
    AtSplit(s, a + |blank|, key, one);
    b, d := a + |blank|, a + |blank| + |key|;
    r := d + |one|;
  }

  ghost predicate PairOk(s: string, tok: Tokens, b: nat, r: nat, m: Member)
    requires Scanned(s, tok)
  {
    && b <= |s| && r <= |s| && Fits(s, tok(b)) && Fits(s, tok(r)) && Opens(tok(b), b)
    && ParseMember(s, tok, tok(b)) == ParsedMember(Ok(m), tok(r))
  }

  /** A key, its colon, and where the value begins. */
  ghost predicate KeyOk(key: string, s: string, tok: Tokens, b: nat, c: nat, d: nat) {
    && b + 2 <= c && c + 1 <= |s| && tok(b) == Lexed(ValueString, b, c) && Decode(s, b + 1, c - 1) == Ok(Mangle(key))
    && tok(c) == Lexed(NameSeparator, c, c + 1) && tok(c + 1) == tok(d)
  }

  lemma KeyTokens(s: string, tok: Tokens, b: nat, key: string, style: P.Style, d: nat) returns (c: nat)
    requires Scanned(s, tok)
    requires At(s, b, P.DumpKey(key, style)) && d == b + |P.DumpKey(key, style)|
    ensures KeyOk(key, s, tok, b, c, d)
  {
    hide Decode, P.Escape, Mangle, TokenFrom;
    assert P.DumpKey(key, style) == Quoted(key) + P.Colon(style);
    AtSplit(s, b, Quoted(key), P.Colon(style));
    c := b + |Quoted(key)|;
    QuotedRead(s, tok, b, key, c);
    ColonRead(s, tok, c, style);
  }

  lemma ColonRead(s: string, tok: Tokens, c: nat, style: P.Style)
    requires Scanned(s, tok)
    requires At(s, c, P.Colon(style))
    ensures c + |P.Colon(style)| <= |s| && tok(c) == Lexed(NameSeparator, c, c + 1)
    ensures c + 1 <= |s| && tok(c + 1) == tok(c + |P.Colon(style)|)
  {
    var blank := P.Colon(style)[1..];
    assert P.Colon(style) == ":" + blank;
    AtSplit(s, c, ":", blank);
    MarkRead(s, tok, c, ':');
    Blank(s, tok, c + 1, blank);
  }

  lemma MemberParsed(s: string, tok: Tokens, b: nat, c: nat, d: nat, m: Member, last: Lexed)
    requires Scanned(s, tok)
    requires b + 2 <= c && c + 1 <= |s| && d <= |s|
    requires tok(b) == Lexed(ValueString, b, c) && Decode(s, b + 1, c - 1) == Ok(m.key)
    requires tok(c) == Lexed(NameSeparator, c, c + 1) && tok(c + 1) == tok(d)
    requires ParseValue(s, tok, tok(d)) == Parsed(Ok(m.value), last)
    ensures ParseMember(s, tok, tok(b)) == ParsedMember(Ok(m), last)
  {}

  /** One turn of the loop for members. */
  lemma PairParsed(s: string, tok: Tokens, l: Lexed, b: nat, r: nat, done: seq<Member>, m: Member)
    requires Scanned(s, tok)
    requires Fits(s, l) && PairOk(s, tok, b, r, m)
    requires l == tok(b) || (l.token == ValueSeparator && tok(l.cursor) == tok(b))
    ensures ParseMembers(s, tok, l, done) ==
      if tok(r).token == ValueSeparator then ParseMembers(s, tok, tok(r), Insert(done, m))
      else AfterMembers(s, tok, Insert(done, m), tok(r))
  {
    assert SkipSeparator(s, tok, l) == tok(b);
  }

  // ----- The round trip -----

  lemma EndScanned(s: string)
    ensures TokenFrom(s, |s|).token == EndOfInput
  {}

  lemma WholeAt(s: string)
    ensures At(s, 0, s) && StopAt(s, |s|)
  {}

  /** Printing and parsing loses nothing but the distinction that mangling loses. */
  lemma PrintedIsParsed(v: Value, style: P.Style)
    requires FloatFree(v) && IntsFit(v)
    ensures Parse(P.Dump(v, style, 0)) == Ok(MangleValue(v))
  {
    hide P.Dump, TokenFrom, ParseValue;
    var s := P.Dump(v, style, 0);
    ScannerIsStream(s);
    WholeAt(s);
    ValueRead(v, style, 0, s, ScannerOf(s), 0, |s|);
    EndScanned(s);
  }

  // ----- What mangling keeps -----

  predicate CleanText(t: string) { '"' !in t && '\\' !in t }

  /** No quote and no backslash in any string or key, and every integer is a double. */
  predicate Clean(v: Value)
    decreases v
  {
    match v
    case Int(n) => RoundInt(n) == n
    case Str(t) => CleanText(t)
    case Arr(elems) => ElemsClean(elems)
    case Obj(members) => MembersClean(members)
    case _ => true
  }

  predicate ElemsClean(elems: seq<Value>)
    decreases elems
  {
    elems == [] || (Clean(elems[0]) && ElemsClean(elems[1..]))
  }

  predicate MembersClean(members: seq<Member>)
    decreases members
  {
    members == [] || (CleanText(members[0].key) && Clean(members[0].value) && MembersClean(members[1..]))
  }

  predicate Below(k: string, members: seq<Member>) {
    forall i {:trigger members[i]} :: 0 <= i < |members| ==> StringLess(k, members[i].key)
  }

  /** The keys of every object increase, as they do in a std::map. */
  predicate Mapped(v: Value)
    decreases v
  {
    match v
    case Arr(elems) => ElemsMapped(elems)
    case Obj(members) => MembersMapped(members)
    case _ => true
  }

  predicate ElemsMapped(elems: seq<Value>)
    decreases elems
  {
    elems == [] || (Mapped(elems[0]) && ElemsMapped(elems[1..]))
  }

  predicate MembersMapped(members: seq<Member>)
    decreases members
  {
    members == [] || (Below(members[0].key, members[1..]) && Mapped(members[0].value) && MembersMapped(members[1..]))
  }

  lemma {:induction false} MangleKeeps(t: string)
    ensures |Mangle(t)| >= |t| && (|Mangle(t)| == |t| <==> CleanText(t))
    ensures CleanText(t) ==> Mangle(t) == t
  {
    if t != [] {
      MangleKeeps(t[1..]);
      assert t == [t[0]] + t[1..];
    }
  }

  lemma {:induction false} MangleInjective(t: string, u: string)
    requires Mangle(t) == Mangle(u)
    ensures t == u
  {
    if t != [] && u != [] {
      var a, b := MangleChar(t[0]), MangleChar(u[0]);
      assert Mangle(t)[0] == a[0] && Mangle(u)[0] == b[0];
      assert |a| == 2 ==> Mangle(t)[1] == a[1];
      assert |b| == 2 ==> Mangle(u)[1] == b[1];
      assert a == b;
      assert Mangle(t)[|a|..] == Mangle(t[1..]) && Mangle(u)[|b|..] == Mangle(u[1..]);
      MangleInjective(t[1..], u[1..]);
      assert t == [t[0]] + t[1..] && u == [u[0]] + u[1..];
    }
  }

  // ----- A value without quotes and backslashes is kept -----

  lemma {:induction false} InsertLast(done: seq<Member>, m: Member)
    requires forall i {:trigger done[i]} :: 0 <= i < |done| ==> StringLess(done[i].key, m.key)
    ensures Insert(done, m) == done + [m]
  {
    if done != [] {
      StringTrichotomy(done[0].key, m.key);
      InsertLast(done[1..], m);
    }
  }

  lemma {:induction false} CleanKept(v: Value)
    requires Clean(v) && Mapped(v)
    ensures MangleValue(v) == v
    decreases v, 1
  {
    match v
    case Str(t) => MangleKeeps(t);
    case Arr(elems) => CleanElemsKept(elems);
    case Obj(members) => CleanMembersKept([], members);
    case _ =>
  }

  lemma {:induction false} CleanElemsKept(elems: seq<Value>)
    requires ElemsClean(elems) && ElemsMapped(elems)
    ensures MangleElems(elems) == elems
    decreases elems, 0
  {
    if elems != [] {
      CleanKept(elems[0]);
      CleanElemsKept(elems[1..]);
    }
  }

  lemma {:induction false} CleanMembersKept(done: seq<Member>, members: seq<Member>)
    requires MembersClean(members) && MembersMapped(members)
    requires forall i, j {:trigger done[i], members[j]} :: 0 <= i < |done| && 0 <= j < |members| ==>
               StringLess(done[i].key, members[j].key)
    ensures InsertMangled(done, members) == done + members
    decreases members, 0
  {
    if members != [] {
      var m := members[0];
      MangleKeeps(m.key);
      CleanKept(m.value);
      InsertLast(done, m);
      CleanMembersKept(done + [m], members[1..]);
      assert done + [m] + members[1..] == done + members;
    }
  }

  // ----- Any other value grows -----

  /** The characters in the strings and keys of a value, and its integers that are doubles. */
  function Weight(v: Value): nat
    decreases v
  {
    match v
    case Int(n) => if RoundInt(n) == n then 1 else 0
    case Str(t) => |t|
    case Arr(elems) => ElemsWeight(elems)
    case Obj(members) => MembersWeight(members)
    case _ => 0
  }

  function ElemsWeight(elems: seq<Value>): nat
    decreases elems
  {
    if elems == [] then 0 else Weight(elems[0]) + ElemsWeight(elems[1..])
  }

  function MembersWeight(members: seq<Member>): nat
    decreases members
  {
    if members == [] then 0 else |members[0].key| + Weight(members[0].value) + MembersWeight(members[1..])
  }

  function MangledWeight(members: seq<Member>): nat {
    if members == [] then 0
    else |Mangle(members[0].key)| + Weight(MangleValue(members[0].value)) + MangledWeight(members[1..])
  }

  ghost predicate Lacks(into: seq<Member>, key: string) {
    forall i {:trigger into[i]} :: 0 <= i < |into| ==> into[i].key != key
  }

  lemma {:induction false} InsertAdds(into: seq<Member>, m: Member)
    requires Lacks(into, m.key)
    ensures MembersWeight(Insert(into, m)) == MembersWeight(into) + |m.key| + Weight(m.value)
  {
    if into == [] {
      assert [m][1..] == [];
    } else if StringLess(m.key, into[0].key) {
      assert ([m] + into)[1..] == into;
    } else {
      InsertAdds(into[1..], m);
      assert ([into[0]] + Insert(into[1..], m))[1..] == Insert(into[1..], m);
    }
  }

  lemma {:induction false} InsertLacks(into: seq<Member>, m: Member, key: string)
    requires key != m.key && Lacks(into, key)
    ensures Lacks(Insert(into, m), key)
  {
    if into != [] { InsertLacks(into[1..], m, key); }
  }

  lemma {:induction false} MangledAdds(into: seq<Member>, members: seq<Member>)
    requires MembersMapped(members)
    requires forall j {:trigger members[j]} :: 0 <= j < |members| ==> Lacks(into, Mangle(members[j].key))
    ensures MembersWeight(InsertMangled(into, members)) == MembersWeight(into) + MangledWeight(members)
    decreases members
  {
    if members != [] {
      var m := MangleMember(members[0]);
      assert Lacks(into, Mangle(members[0].key));
      InsertAdds(into, m);
      forall j | 0 <= j < |members[1..]| ensures Lacks(Insert(into, m), Mangle(members[1..][j].key)) {
        assert members[1..][j] == members[j + 1];
        KeysDiffer(members, j);
        InsertLacks(into, m, Mangle(members[j + 1].key));
      }
      MangledAdds(Insert(into, m), members[1..]);
    }
  }

  lemma KeysDiffer(members: seq<Member>, j: nat)
    requires members != [] && Below(members[0].key, members[1..]) && j < |members| - 1
    ensures Mangle(members[0].key) != Mangle(members[1..][j].key)
  {
    StringTrichotomy(members[0].key, members[0].key);
    if Mangle(members[0].key) == Mangle(members[1..][j].key) {
      MangleInjective(members[0].key, members[1..][j].key);
    }
  }

  lemma {:induction false} Heavier(v: Value)
    requires Mapped(v)
    ensures Weight(MangleValue(v)) >= Weight(v) && (Weight(MangleValue(v)) == Weight(v) ==> Clean(v))
    decreases v, 1
  {
    match v
    case Int(n) => RoundTwice(n);
    case Str(t) => MangleKeeps(t);
    case Arr(elems) => HeavierElems(elems);
    case Obj(members) =>
      MangledAdds([], members);
      HeavierMembers(members);
    case _ =>
  }

  lemma {:induction false} HeavierElems(elems: seq<Value>)
    requires ElemsMapped(elems)
    ensures ElemsWeight(MangleElems(elems)) >= ElemsWeight(elems)
    ensures ElemsWeight(MangleElems(elems)) == ElemsWeight(elems) ==> ElemsClean(elems)
    decreases elems, 0
  {
    if elems != [] {
      Heavier(elems[0]);
      HeavierElems(elems[1..]);
      assert MangleElems(elems)[1..] == MangleElems(elems[1..]);
    }
  }

  lemma {:induction false} HeavierMembers(members: seq<Member>)
    requires MembersMapped(members)
    ensures MangledWeight(members) >= MembersWeight(members)
    ensures MangledWeight(members) == MembersWeight(members) ==> MembersClean(members)
    decreases members, 0
  {
    if members != [] {
      MangleKeeps(members[0].key);
      Heavier(members[0].value);
      HeavierMembers(members[1..]);
    }
  }

  /** parse(dump(v, indent)) is v, for the compact form and for every indentation, exactly if there is no quote and no
      backslash in the strings and keys of v, and all its integers are doubles, as those up to 2^53 are. */
  lemma RoundTrip(v: Value, style: P.Style)
    requires FloatFree(v) && IntsFit(v) && Mapped(v)
    ensures Parse(P.Dump(v, style, 0)) == Ok(v) <==> Clean(v)
  {
    hide P.Dump, Parse, MangleValue, Weight, Clean;
    PrintedIsParsed(v, style);
    Heavier(v);
    if Clean(v) { CleanKept(v); }
  }

  /** A quote comes back with a backslash in front of it. */
  lemma QuoteGainsBackslash(style: P.Style)
    ensures Parse(P.Dump(Str("\""), style, 0)) == Ok(Str("\\\""))
  {
    PrintedIsParsed(Str("\""), style);
    assert "\""[1..] == [] && Mangle("\"") == MangleChar('"') + Mangle([]);
    assert Mangle("\"") == "\\\"";
  }
}
