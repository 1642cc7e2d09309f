/** Parsing JSON texts, in json.hpp: get_string, get_number and the recursive-descent parser. Exceptions are Fail.
    Outside stands for what this model does not follow: numbers with a fraction or an exponent or beyond the range of
    the integers, and strtoul on what are no hexadecimal digits. */
module JsonParser {
  import opened JsonNumbers
  import opened JsonOrder
  import opened JsonScanner
  import opened Numerals

  datatype Result<+T> = Ok(value: T) | Fail | Outside

  // ----- Strings -----

  function HexValue(c: char): nat {
    if IsDigit(c) then c as int - '0' as int
    else if 'a' <= c <= 'f' then c as int - 'a' as int + 10
    else if 'A' <= c <= 'F' then c as int - 'A' as int + 10
    else 0
  }

  /** strtoul on the four hexadecimal digits at i */
  function CodePoint(s: string, i: nat): nat {
    4096 * HexValue(Ch(s, i)) + 256 * HexValue(Ch(s, i + 1)) + 16 * HexValue(Ch(s, i + 2)) + HexValue(Ch(s, i + 3))
  }

  /** to_unicode for one code point: UTF-8 */
  function ToUnicode(cp: nat): string
    requires cp < 0x11_0000
  {
    if cp <= 0x7f then [cp as char]
    else if cp <= 0x7ff then [(0xC0 + cp / 64) as char, (0x80 + cp % 64) as char]
    else if cp <= 0xffff then [(0xE0 + cp / 4096) as char, (0x80 + cp / 64 % 64) as char, (0x80 + cp % 64) as char]
    else [(0xF0 + cp / 0x4_0000) as char, (0x80 + cp / 4096 % 64) as char, (0x80 + cp / 64 % 64) as char,
          (0x80 + cp % 64) as char]
  }

  predicate HighSurrogate(cp: nat) { 0xD800 <= cp <= 0xDBFF }
  predicate LowSurrogate(cp: nat) { 0xDC00 <= cp <= 0xDFFF }

  /** A second escape follows the one at i. */
  predicate EscapeFollows(s: string, i: nat) { i + 7 < |s| && Ch(s, i + 6) == '\\' && Ch(s, i + 7) == 'u' }

  /** The escape at i is a high surrogate, and one with a low surrogate follows. */
  predicate PairAt(s: string, i: nat) {
    && Ch(s, i) == '\\' && Ch(s, i + 1) == 'u' && FourHex(s, i + 2) && HighSurrogate(CodePoint(s, i + 2))
    && EscapeFollows(s, i) && FourHex(s, i + 8) && LowSurrogate(CodePoint(s, i + 8))
  }

  /** The code point of a surrogate pair, 0x10000 and above. */
  function PairPoint(high: nat, low: nat): nat
    requires HighSurrogate(high) && LowSurrogate(low)
  {
    1024 * high + low - 0x35F_DC00
  }

  function Prepend(t: string, r: Result<string>): Result<string> {
    match r
    case Ok(u) => Ok(t + u)
    case Fail => Fail
    case Outside => Outside
  }

  /** What get_string appends for the escape sequence with the letter d; some sequences keep their backslash. */
  function Replacement(d: char): string {
    if d == 't' then "\t" else if d == 'b' then [8 as char] else if d == 'f' then [12 as char]
    else if d == 'n' then "\n" else if d == 'r' then "\r"
    else if d == '\\' then "\\\\" else if d == '/' then "\\/" else if d == '"' then "\\\""
    else []
  }

  lemma CodePointSmall(s: string, i: nat)
    ensures CodePoint(s, i) < 0x1_0000
  {}

  /** get_string, on the characters from i up to the closing quote. */
  function Decode(s: string, i: nat, end: nat): Result<string>
    decreases if i < end then end - i else 0
  {
    if i >= end then Ok([])
    else if Ch(s, i) == '\\' then
      if Ch(s, i + 1) == 'u' then
        var cp := CodePoint(s, i + 2);
        CodePointSmall(s, i + 2);
        if !FourHex(s, i + 2) then Outside
        else if !HighSurrogate(cp) then Prepend(ToUnicode(cp), Decode(s, i + 6, end))
        else if !EscapeFollows(s, i) then Fail
        else if !FourHex(s, i + 8) then Outside
        else if !LowSurrogate(CodePoint(s, i + 8)) then Fail
        else Prepend(ToUnicode(PairPoint(cp, CodePoint(s, i + 8))), Decode(s, i + 13, end))
      else Prepend(Replacement(Ch(s, i + 1)), Decode(s, i + 2, end))
    else Prepend([Ch(s, i)], Decode(s, i + 1, end))
  }

  /** The code point of a pair is the one that UTF-16 writes as that pair. */
  lemma PairPointExact(high: nat, low: nat)
    requires HighSurrogate(high) && LowSurrogate(low)
    ensures var p := PairPoint(high, low);
      && 0x1_0000 <= p <= 0x10_FFFF
      && high == 0xD800 + (p - 0x1_0000) / 1024 && low == 0xDC00 + (p - 0x1_0000) % 1024
  {
    var p := PairPoint(high, low) - 0x1_0000;
    assert p == 1024 * (high - 0xD800) + (low - 0xDC00);
  }

  /** A surrogate pair becomes the UTF-8 of its code point, and the character after it is lost: the characters up to the
      closing quote are decoded as they should be exactly if there is none. */
  lemma PairDropsNext(s: string, i: nat, end: nat)
    requires PairAt(s, i) && i + 12 <= end < |s| && s[end] == '"'
    ensures var pair := ToUnicode(PairPoint(CodePoint(s, i + 2), CodePoint(s, i + 8)));
      && Decode(s, i, end) == Prepend(pair, Decode(s, i + 13, end))
      && (Decode(s, i, end).Ok? && Decode(s, i, end) == Prepend(pair, Decode(s, i + 12, end)) <==> i + 12 == end)
  {
    hide CodePoint, ToUnicode, FourHex;
    var pair := ToUnicode(PairPoint(CodePoint(s, i + 2), CodePoint(s, i + 8)));
    assert Decode(s, i, end) == Prepend(pair, Decode(s, i + 13, end));
    if i + 12 == end {
      assert Decode(s, i + 12, end) == Ok([]) == Decode(s, i + 13, end);
    } else if Decode(s, i + 12, end).Ok? && Decode(s, i + 13, end).Ok? {
      NeverSame(s, i + 12, end);
      hide Decode;
      PrependSame(pair, Decode(s, i + 12, end), pair, Decode(s, i + 13, end));
    }
  }

  lemma PrependSame(t: string, a: Result<string>, u: string, b: Result<string>)
    requires |t| == |u| && a.Ok? && b.Ok?
    ensures Prepend(t, a) == Prepend(u, b) <==> t == u && a == b
  {
    var x, y := t + a.value, u + b.value;
    assert x[..|t|] == t && x[|t|..] == a.value && y[..|t|] == u && y[|t|..] == b.value;
  }

  lemma Utf8Starts(cp: nat)
    requires cp < 0x11_0000
    ensures 1 <= |ToUnicode(cp)| <= 4 && (cp < 0x1_0000 ==> |ToUnicode(cp)| <= 3)
    ensures cp >= 0x1_0000 ==> ToUnicode(cp)[0] as int >= 0xF0
  {}

  lemma PlainStep(s: string, k: nat, end: nat)
    requires k < end <= |s| && s[k] != '\\'
    ensures Decode(s, k, end) == Prepend([s[k]], Decode(s, k + 1, end))
  {}

  /** A u and four digits that have lost their backslash are five characters. */
  lemma HexSkipped(s: string, k: nat, end: nat)
    requires k < end < |s| && s[end] == '"' && s[k] == '\\' && s[k + 1] == 'u' && FourHex(s, k + 2)
    ensures k + 6 <= end
    ensures Decode(s, k + 1, end) == Prepend(s[k + 1..k + 6], Decode(s, k + 6, end))
  {
    assert end != k + 1 && end != k + 2 && end != k + 3 && end != k + 4 && end != k + 5;
    hide Decode;
    var rest := Decode(s, k + 6, end);
    PlainStep(s, k + 5, end);
    PlainStep(s, k + 4, end);
    PrependTwice([s[k + 4]], [s[k + 5]], rest);
    PlainStep(s, k + 3, end);
    PrependTwice([s[k + 3]], [s[k + 4], s[k + 5]], rest);
    PlainStep(s, k + 2, end);
    PrependTwice([s[k + 2]], [s[k + 3], s[k + 4], s[k + 5]], rest);
    PlainStep(s, k + 1, end);
    PrependTwice([s[k + 1]], [s[k + 2], s[k + 3], s[k + 4], s[k + 5]], rest);
    assert [s[k + 4]] + [s[k + 5]] == [s[k + 4], s[k + 5]];
    assert [s[k + 3]] + [s[k + 4], s[k + 5]] == [s[k + 3], s[k + 4], s[k + 5]];
    assert [s[k + 2]] + [s[k + 3], s[k + 4], s[k + 5]] == [s[k + 2], s[k + 3], s[k + 4], s[k + 5]];
    assert s[k + 1..k + 6] == [s[k + 1]] + [s[k + 2], s[k + 3], s[k + 4], s[k + 5]];
  }

  /** What the escape with a u at k becomes, apart from what follows. */
  lemma HexRead(s: string, k: nat, end: nat) returns (t: string, rest: Result<string>)
    requires k < end < |s| && s[k] == '\\' && s[k + 1] == 'u' && Decode(s, k, end).Ok?
    ensures FourHex(s, k + 2) && Decode(s, k, end) == Prepend(t, rest) && rest.Ok?
    ensures (1 <= |t| <= 3 && rest == Decode(s, k + 6, end)) || (|t| == 4 && t[0] as int >= 0xF0)
  {
    hide CodePoint, ToUnicode, FourHex;
    var cp := CodePoint(s, k + 2);
    CodePointSmall(s, k + 2);
    if HighSurrogate(cp) {
      var p := PairPoint(cp, CodePoint(s, k + 8));
      Utf8Starts(p);
      t, rest := ToUnicode(p), Decode(s, k + 13, end);
      Utf8Long(p);
    } else {
      Utf8Starts(cp);
      t, rest := ToUnicode(cp), Decode(s, k + 6, end);
    }
  }

  lemma Utf8Long(cp: nat)
    requires 0x1_0000 <= cp < 0x11_0000
    ensures |ToUnicode(cp)| == 4
  {}

  /** Leaving a character out always shows. */
  lemma {:induction false} NeverSame(s: string, k: nat, end: nat)
    requires k < end < |s| && s[end] == '"' && Decode(s, k, end).Ok? && Decode(s, k + 1, end).Ok?
    ensures Decode(s, k, end) != Decode(s, k + 1, end)
    decreases end - k
  {
    if s[k] != '\\' {
      PlainStep(s, k, end);
    } else if s[k + 1] == 'u' {
      EscapeSkipped(s, k, end);
    } else if s[k + 1] == '\\' {
      if k + 2 < end && s[k + 2] == '\\' {
        BackslashTwice(s, k, end);
        BackslashTwice(s, k + 1, end);
        NeverSame(s, k + 2, end);
        hide Decode;
        PrependSame("\\\\", Decode(s, k + 2, end), "\\\\", Decode(s, k + 3, end));
      } else {
        BackslashSkipped(s, k, end);
      }
    } else if k + 1 < end {
      LetterSkipped(s, k, end);
    } else {
      assert Decode(s, k, end) == Prepend("\\\"", Decode(s, k + 2, end));
    }
  }

  lemma BackslashTwice(s: string, k: nat, end: nat)
    requires k < end < |s| && s[k] == '\\' == s[k + 1]
    ensures Decode(s, k, end) == Prepend("\\\\", Decode(s, k + 2, end))
  {}

  lemma EscapeSkipped(s: string, k: nat, end: nat)
    requires k < end < |s| && s[end] == '"' && s[k] == '\\' && s[k + 1] == 'u'
    requires Decode(s, k, end).Ok? && Decode(s, k + 1, end).Ok?
    ensures Decode(s, k, end) != Decode(s, k + 1, end)
  {
    var t, rest := HexRead(s, k, end);
    HexSkipped(s, k, end);
    hide Decode;
    assert Decode(s, k + 1, end).value[0] == 'u';
    assert Decode(s, k, end).value[0] == t[0];
    assert |Decode(s, k, end).value| == |t| + |rest.value|;
  }

  lemma LetterSkipped(s: string, k: nat, end: nat)
    requires k + 1 < end < |s| && s[k] == '\\' && s[k + 1] != '\\' && s[k + 1] != 'u'
    requires Decode(s, k, end).Ok? && Decode(s, k + 1, end).Ok?
    ensures Decode(s, k, end) != Decode(s, k + 1, end)
  {
    var rest := Decode(s, k + 2, end);
    PlainStep(s, k + 1, end);
    assert Decode(s, k, end) == Prepend(Replacement(s[k + 1]), rest);
    hide Decode;
    if |Replacement(s[k + 1])| == 1 { PrependSame(Replacement(s[k + 1]), rest, [s[k + 1]], rest); }
  }

  lemma BackslashSkipped(s: string, k: nat, end: nat)
    requires k + 1 < end < |s| && s[end] == '"' && s[k] == '\\' == s[k + 1]
    requires k + 2 == end || s[k + 2] != '\\'
    requires Decode(s, k, end).Ok? && Decode(s, k + 1, end).Ok?
    ensures Decode(s, k, end) != Decode(s, k + 1, end)
  {
    assert Decode(s, k, end) == Prepend("\\\\", Decode(s, k + 2, end));
    if s[k + 2] == 'u' {
      var t, rest := HexRead(s, k + 1, end);
      HexSkipped(s, k + 1, end);
      hide Decode;
      assert Decode(s, k, end).value[0] == '\\';
    } else {
      var r := Replacement(s[k + 2]);
      assert Decode(s, k + 1, end) == Prepend(r, Decode(s, k + 3, end));
      if k + 2 < end { PlainStep(s, k + 2, end); }
      assert Decode(s, k + 1, end).value[..|r|] == r;
      assert Decode(s, k, end).value[..2] == "\\\\";
      hide Decode;
      if r == [] {
        assert |Decode(s, k, end).value| > |Decode(s, k + 1, end).value|;
      } else if |r| == 1 {
        assert Decode(s, k + 1, end).value[0] == r[0];
      } else {
        assert Decode(s, k + 1, end).value[1] == r[1];
      }
    }
  }

  // ----- Numbers -----

  /** get_number, which reads a double, and the conversion of that to an integer. */
  function NumberValue(s: string): Result<Value> {
    var negative := s != [] && s[0] == '-';
    var digits := if negative then s[1..] else s;
    var n := RoundInt(if negative then -DigitsValue(digits) else DigitsValue(digits));
    if digits == [] || !Digits(digits) || !IsInt64(n) then Outside else Ok(Int(n))
  }

  // ----- Values -----

  /** result[key] = value on a std::map */
  function Insert(members: seq<Member>, m: Member): seq<Member> {
    if members == [] then [m]
    else if m.key == members[0].key then [m] + members[1..]
    else if StringLess(m.key, members[0].key) then [m] + members
    else [members[0]] + Insert(members[1..], m)
  }

  /** The tokens of a text: which one is scanned from each position. */
  type Tokens = nat -> Lexed

  /** A token has characters, and only the end of the input may reach beyond the text. */
  predicate Fits(s: string, l: Lexed) {
    l.start < l.cursor && l.start <= |s| && (l.token != EndOfInput ==> l.cursor <= |s|)
  }

  ghost predicate Stream(s: string, tok: Tokens) {
    forall p :: 0 <= p <= |s| ==> p <= tok(p).start && Fits(s, tok(p))
  }

  /** get_token; it is only asked for a token after one that is not the end of the input. */
  function Next(s: string, tok: Tokens, l: Lexed): (n: Lexed)
    requires Stream(s, tok) && Fits(s, l) && l.token != EndOfInput
    ensures Fits(s, n) && l.cursor <= n.start
  {
    tok(l.cursor)
  }

  function ScannerOf(s: string): Tokens {
    (p: nat) => if p <= |s| then TokenFrom(s, p) else Lexed(EndOfInput, |s|, |s| + 1)
  }

  /** tok is what the scanner finds. */
  ghost predicate Scans(s: string, tok: Tokens) {
    forall p: nat {:trigger TokenFrom(s, p)} :: p <= |s| ==> tok(p) == TokenFrom(s, p)
  }

  lemma ScannerIsStream(s: string)
    ensures Stream(s, ScannerOf(s)) && Scans(s, ScannerOf(s))
  {
    forall p | 0 <= p <= |s| ensures p <= ScannerOf(s)(p).start && Fits(s, ScannerOf(s)(p)) {
      TokenFits(s, p);
    }
  }

  lemma TokenFits(s: string, p: nat)
    requires p <= |s|
    ensures Fits(s, TokenFrom(s, p))
  {
    SkipsWhiteSpace(s, p);
    NumberFromIsLongest(s, TokenFrom(s, p).start);
  }

  /** What a parsing function returns: the value, and last_token. */
  datatype Parsed = Parsed(result: Result<Value>, last: Lexed)

  ghost predicate Advanced(s: string, l: Lexed, r: Parsed) {
    r.result.Ok? ==> Fits(s, r.last) && l.start < r.last.start
  }

  function Done(s: string, tok: Tokens, v: Value, l: Lexed): (r: Parsed)
    requires Stream(s, tok) && Fits(s, l) && l.token != EndOfInput
    ensures Advanced(s, l, r)
  {
    Parsed(Ok(v), Next(s, tok, l))
  }

  function AfterElems(s: string, tok: Tokens, elems: seq<Value>, l: Lexed): Parsed
    requires Stream(s, tok) && Fits(s, l)
  {
    if l.token == EndArray then Done(s, tok, Arr(elems), l) else Parsed(Fail, l)
  }

  function AfterMembers(s: string, tok: Tokens, members: seq<Member>, l: Lexed): Parsed
    requires Stream(s, tok) && Fits(s, l)
  {
    if l.token == EndObject then Done(s, tok, Obj(members), l) else Parsed(Fail, l)
  }

  /** parse_internal */
  function ParseValue(s: string, tok: Tokens, l: Lexed): (r: Parsed)
    requires Stream(s, tok) && Fits(s, l)
    ensures Advanced(s, l, r)
    decreases |s| - l.start, 0
  {
    match l.token
    case BeginObject =>
      var first := Next(s, tok, l);
      if first.token == EndObject then Done(s, tok, Obj([]), first) else ParseMembers(s, tok, first, [])
    case BeginArray =>
      var first := Next(s, tok, l);
      if first.token == EndArray then Done(s, tok, Arr([]), first) else ParseElems(s, tok, first, [])
    case LiteralNull => Done(s, tok, Null, l)
    case LiteralTrue => Done(s, tok, Bool(true), l)
    case LiteralFalse => Done(s, tok, Bool(false), l)
    case ValueString =>
      (match Decode(s, l.start + 1, l.cursor - 1)
       case Ok(t) => Done(s, tok, Str(t), l)
       case Fail => Parsed(Fail, l)
       case Outside => Parsed(Outside, l))
    case ValueNumber =>
      (match NumberValue(s[l.start..l.cursor])
       case Ok(v) => Done(s, tok, v, l)
       case Fail => Parsed(Fail, l)
       case Outside => Parsed(Outside, l))
    case _ => Parsed(Fail, l)
  }

  /** The token after a separator, if the token is one. */
  function SkipSeparator(s: string, tok: Tokens, l: Lexed): (n: Lexed)
    requires Stream(s, tok) && Fits(s, l)
    ensures Fits(s, n) && l.start <= n.start
  {
    if l.token == ValueSeparator then Next(s, tok, l) else l
  }

  /** The loop for the elements of an array. It skips a separator wherever an element begins, even the first. */
  function ParseElems(s: string, tok: Tokens, l: Lexed, elems: seq<Value>): (r: Parsed)
    requires Stream(s, tok) && Fits(s, l)
    ensures Advanced(s, l, r)
    decreases |s| - l.start, 1
  {
    var one := ParseValue(s, tok, SkipSeparator(s, tok, l));
    if !one.result.Ok? then one
    else
      var more := elems + [one.result.value];
      if one.last.token == ValueSeparator then ParseElems(s, tok, one.last, more)
      else AfterElems(s, tok, more, one.last)
  }

  datatype ParsedMember = ParsedMember(result: Result<Member>, last: Lexed)

  /** A key, a colon and a value. */
  function ParseMember(s: string, tok: Tokens, k: Lexed): (r: ParsedMember)
    requires Stream(s, tok) && Fits(s, k)
    ensures r.result.Ok? ==> Fits(s, r.last) && k.start < r.last.start
    decreases |s| - k.start, 1
  {
    if k.token != ValueString then ParsedMember(Fail, k)
    else
      match Decode(s, k.start + 1, k.cursor - 1)
      case Fail => ParsedMember(Fail, k)
      case Outside => ParsedMember(Outside, k)
      case Ok(key) =>
        var colon := Next(s, tok, k);
        if colon.token != NameSeparator then ParsedMember(Fail, colon)
        else
          var one := ParseValue(s, tok, Next(s, tok, colon));
          match one.result
          case Fail => ParsedMember(Fail, colon)
          case Outside => ParsedMember(Outside, colon)
          case Ok(v) => ParsedMember(Ok(Member(key, v)), one.last)
  }

  /** The loop for the members of an object. */
  function ParseMembers(s: string, tok: Tokens, l: Lexed, members: seq<Member>): (r: Parsed)
    requires Stream(s, tok) && Fits(s, l)
    ensures Advanced(s, l, r)
    decreases |s| - l.start, 2
  {
    var one := ParseMember(s, tok, SkipSeparator(s, tok, l));
    match one.result
    case Fail => Parsed(Fail, one.last)
    case Outside => Parsed(Outside, one.last)
    case Ok(m) =>
      var more := Insert(members, m);
      if one.last.token == ValueSeparator then ParseMembers(s, tok, one.last, more)
      else AfterMembers(s, tok, more, one.last)
  }

  /** parse */
  function Parse(s: string): Result<Value> {
    ScannerIsStream(s);
    var r := ParseValue(s, ScannerOf(s), ScannerOf(s)(0));
    if r.result.Ok? && r.last.token != EndOfInput then Fail else r.result
  }

  lemma {:induction false} PrependTwice(t: string, u: string, r: Result<string>)
    ensures Prepend(t, Prepend(u, r)) == Prepend(t + u, r)
  {
    if r.Ok? { assert t + (u + r.value) == t + u + r.value; }
  }

  lemma PrependNothing(r: Result<string>)
    ensures Prepend("", r) == r
  {
    if r.Ok? { assert "" + r.value == r.value; }
  }

  class Parser {
    const lexer: Lexer
    var lastToken: Token
    /** The tokens of the text, as the lexer scans them. */
    ghost const tok: Tokens

    /** Reads the first token. */
    constructor (text: string)
      ensures fresh(lexer) && lexer.content == text && tok == ScannerOf(text) && Valid() && Last() == TokenFrom(text, 0)
    {
      lexer := new Lexer(text);
      lastToken := EndOfInput;
      tok := ScannerOf(text);
      new;
      ScannerIsStream(text);
      TokenFits(text, 0);
      SkipsWhiteSpace(text, 0);
      lastToken := lexer.Scan();
    }

    ghost function Last(): Lexed
      reads this, lexer
    {
      Lexed(lastToken, lexer.start, lexer.cursor)
    }

    ghost predicate Valid()
      reads this, lexer
    {
      && Fits(lexer.content, Last()) && Last() == TokenFrom(lexer.content, lexer.start)
      && Stream(lexer.content, tok) && Scans(lexer.content, tok)
    }

    method GetToken()
      requires Valid() && lastToken != EndOfInput
      modifies this, lexer
      ensures Last() == Next(lexer.content, tok, old(Last())) && Valid()
    {
      TokenFits(lexer.content, lexer.cursor);
      SkipsWhiteSpace(lexer.content, lexer.cursor);
      lastToken := lexer.Scan();
    }

    /** get_string */
    method GetString() returns (r: Result<string>)
      requires lexer.start + 2 <= lexer.cursor <= |lexer.content|
      ensures r == Decode(lexer.content, lexer.start + 1, lexer.cursor - 1)
    {
      hide CodePoint, ToUnicode, Replacement, FourHex;
      var s, end := lexer.content, lexer.cursor - 1;
      var result, i := "", lexer.start + 1;
      ghost var whole := Decode(s, i, end);
      PrependNothing(whole);
      while i < end
        invariant whole == Prepend(result, Decode(s, i, end))
        decreases if i < end then end - i else 0
      {
        if Ch(s, i) == '\\' {
          i := i + 1;
          if Ch(s, i) == 'u' {
            if !FourHex(s, i + 1) { return Outside; }
            var cp := CodePoint(s, i + 1);
            CodePointSmall(s, i + 1);
            if HighSurrogate(cp) {
              if i + 6 >= |s| || Ch(s, i + 5) != '\\' || Ch(s, i + 6) != 'u' { return Fail; }
              if !FourHex(s, i + 7) { return Outside; }
              var second := CodePoint(s, i + 7);
              if !LowSurrogate(second) { return Fail; }
              var pair := ToUnicode(PairPoint(cp, second));
              PrependTwice(result, pair, Decode(s, i + 12, end));
              result, i := result + pair, i + 11;
            } else {
              PrependTwice(result, ToUnicode(cp), Decode(s, i + 5, end));
              result, i := result + ToUnicode(cp), i + 4;
            }
          } else {
            PrependTwice(result, Replacement(Ch(s, i)), Decode(s, i + 1, end));
            result := result + Replacement(Ch(s, i));
          }
        } else {
          PrependTwice(result, [Ch(s, i)], Decode(s, i + 1, end));
          result := result + [Ch(s, i)];
        }
        i := i + 1;
      }
      assert result + [] == result;
      return Ok(result);
    }

    /** parse_internal */
    method ParseInternal() returns (r: Result<Value>)
      requires Valid()
      modifies this, lexer
      ensures var p := ParseValue(lexer.content, tok, old(Last())); r == p.result && (r.Ok? ==> Last() == p.last)
      ensures r.Ok? ==> Valid() && old(lexer.start) < lexer.start
      decreases |lexer.content| - lexer.start, 1
    {
      hide Decode, NumberValue, TokenFrom, ParseElems, ParseMembers;
      match lastToken
      case BeginObject =>
        GetToken();
        if lastToken == EndObject {
          GetToken();
          return Ok(Obj([]));
        }
        r := ParseObject();
      case BeginArray =>
        GetToken();
        if lastToken == EndArray {
          GetToken();
          return Ok(Arr([]));
        }
        r := ParseArray();
      case LiteralNull =>
        GetToken();
        return Ok(Null);
      case LiteralTrue =>
        GetToken();
        return Ok(Bool(true));
      case LiteralFalse =>
        GetToken();
        return Ok(Bool(false));
      case ValueString =>
        StringTokens(lexer.content, lexer.start);
        var t := GetString();
        if !t.Ok? { return if t.Fail? then Fail else Outside; }
        GetToken();
        return Ok(Str(t.value));
      case ValueNumber =>
        NumberTokens(lexer.content, lexer.start);
        r := NumberValue(lexer.content[lexer.start..lexer.cursor]);
        if r.Ok? { GetToken(); }
      case _ => return Fail;
    }

    method ParseArray() returns (r: Result<Value>)
      requires Valid()
      modifies this, lexer
      ensures var p := ParseElems(lexer.content, tok, old(Last()), []); r == p.result && (r.Ok? ==> Last() == p.last)
      ensures r.Ok? ==> Valid() && old(lexer.start) < lexer.start
      decreases |lexer.content| - lexer.start, 3
    {
      var elems: seq<Value> := [];
      var more := true;
      while more
        invariant Valid() && lexer.start >= old(lexer.start)
        invariant more ==>
            ParseElems(lexer.content, tok, Last(), elems) == ParseElems(lexer.content, tok, old(Last()), [])
        invariant !more ==> lastToken != ValueSeparator
        invariant !more ==>
            ParseElems(lexer.content, tok, old(Last()), []) == AfterElems(lexer.content, tok, elems, Last())
        decreases more, |lexer.content| - lexer.start
      {
        if lastToken == ValueSeparator { GetToken(); }
        var one := ParseInternal();
        if !one.Ok? { return one; }
        elems := elems + [one.value];
        more := lastToken == ValueSeparator;
      }
      if lastToken != EndArray { return Fail; }
      GetToken();
      return Ok(Arr(elems));
    }

    method ParsePair() returns (r: Result<Member>)
      requires Valid()
      modifies this, lexer
      ensures var p := ParseMember(lexer.content, tok, old(Last())); r == p.result && (r.Ok? ==> Last() == p.last)
      ensures r.Ok? ==> Valid() && old(lexer.start) < lexer.start
      decreases |lexer.content| - lexer.start, 2
    {
      if lastToken != ValueString { return Fail; }
      StringTokens(lexer.content, lexer.start);
      var key := GetString();
      if !key.Ok? { return if key.Fail? then Fail else Outside; }
      GetToken();
      if lastToken != NameSeparator { return Fail; }
      GetToken();
      var one := ParseInternal();
      if !one.Ok? { return if one.Fail? then Fail else Outside; }
      return Ok(Member(key.value, one.value));
    }

    method ParseObject() returns (r: Result<Value>)
      requires Valid()
      modifies this, lexer
      ensures var p := ParseMembers(lexer.content, tok, old(Last()), []); r == p.result && (r.Ok? ==> Last() == p.last)
      ensures r.Ok? ==> Valid() && old(lexer.start) < lexer.start
      decreases |lexer.content| - lexer.start, 3
    {
      var members: seq<Member> := [];
      var more := true;
      while more
        invariant Valid() && lexer.start >= old(lexer.start)
        invariant more ==>
            ParseMembers(lexer.content, tok, Last(), members) == ParseMembers(lexer.content, tok, old(Last()), [])
        invariant !more ==> lastToken != ValueSeparator
        invariant !more ==>
            ParseMembers(lexer.content, tok, old(Last()), []) == AfterMembers(lexer.content, tok, members, Last())
        decreases more, |lexer.content| - lexer.start
      {
        if lastToken == ValueSeparator { GetToken(); }
        var one := ParsePair();
        if !one.Ok? { return if one.Fail? then Fail else Outside; }
        members := Insert(members, one.value);
        more := lastToken == ValueSeparator;
      }
      if lastToken != EndObject { return Fail; }
      GetToken();
      return Ok(Obj(members));
    }

    /** parse: the whole text must be one value. */
    method ParseAll() returns (r: Result<Value>)
      requires Valid() && Last() == TokenFrom(lexer.content, 0) && tok == ScannerOf(lexer.content)
      modifies this, lexer
      ensures r == Parse(lexer.content)
    {
      r := ParseInternal();
      if r.Ok? && lastToken != EndOfInput { r := Fail; }
    }
  }
}
