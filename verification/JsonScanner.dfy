/** The scanner of json.hpp, lexer::scan: the automaton that re2c has made of its regular expressions, with its
    marker for backtracking. The buffer is a string followed by a NUL character, as c_str() gives it. */
module JsonScanner {
  import opened Numerals
  import opened Prelude

  datatype Token =
    | LiteralTrue | LiteralFalse | LiteralNull
    | ValueString | ValueNumber
    | BeginArray | BeginObject | EndArray | EndObject
    | NameSeparator | ValueSeparator
    | ParseError | EndOfInput

  const NUL: char := '\0'

  /** *m_cursor */
  function Ch(s: string, i: nat): char { if i < |s| then s[i] else NUL }

  predicate IsSpace(c: char) { c == ' ' || c == '\t' || c == '\n' || c == '\r' }
  predicate IsHex(c: char) { IsDigit(c) || 'a' <= c <= 'f' || 'A' <= c <= 'F' }

  // ----- Numbers: section 6 of RFC 7159 -----

  /** int = zero / ( digit1-9 *DIGIT ) */
  predicate IsInt(s: string) { s == "0" || (s != [] && '1' <= s[0] <= '9' && Digits(s[1..])) }

  /** [ frac ], frac = decimal-point 1*DIGIT */
  predicate IsFrac(s: string) { s == [] || (|s| >= 2 && s[0] == '.' && Digits(s[1..])) }

  predicate IsE(c: char) { c == 'e' || c == 'E' }
  predicate IsSign(c: char) { c == '+' || c == '-' }

  /** [ exp ], exp = e [ minus / plus ] 1*DIGIT */
  predicate IsExp(s: string) { s == [] || (IsE(s[0]) && IsPower(s[1..])) }

  predicate IsPower(s: string) {
    if s != [] && IsSign(s[0]) then |s| >= 2 && Digits(s[1..]) else s != [] && Digits(s)
  }

  ghost predicate FracExp(s: string, j: nat) { j <= |s| && IsFrac(s[..j]) && IsExp(s[j..]) }

  ghost predicate IntFracExp(s: string, i: nat) {
    i <= |s| && IsInt(s[..i]) && exists j: nat :: FracExp(s[i..], j)
  }

  ghost predicate IsUnsigned(s: string) { exists i: nat :: IntFracExp(s, i) }

  /** number = [ minus ] int [ frac ] [ exp ] */
  ghost predicate IsNumber(s: string) {
    if s != [] && s[0] == '-' then IsUnsigned(s[1..]) else IsUnsigned(s)
  }

  /** s[p..e] is the longest number that starts at p. */
  ghost predicate LongestNumber(s: string, p: nat, e: nat) {
    && p < e <= |s| && IsNumber(s[p..e])
    && forall f :: e < f <= |s| ==> !IsNumber(s[p..f])
  }

  ghost predicate NoNumber(s: string, p: nat) {
    forall f :: p <= f <= |s| ==> !IsNumber(s[p..f])
  }

  // ----- The automaton for numbers -----

  datatype State = Begin | Minus | Zero | Whole | Point | Fraction | Exponent | Sign | Power | Dead

  function Delta(q: State, c: char): State {
    match q
    case Begin => if c == '-' then Minus else if c == '0' then Zero else if IsDigit(c) then Whole else Dead
    case Minus => if c == '0' then Zero else if IsDigit(c) then Whole else Dead
    case Zero => if c == '.' then Point else if IsE(c) then Exponent else Dead
    case Whole => if IsDigit(c) then Whole else if c == '.' then Point else if IsE(c) then Exponent else Dead
    case Point => if IsDigit(c) then Fraction else Dead
    case Fraction => if IsDigit(c) then Fraction else if IsE(c) then Exponent else Dead
    case Exponent => if IsSign(c) then Sign else if IsDigit(c) then Power else Dead
    case Sign => if IsDigit(c) then Power else Dead
    case Power => if IsDigit(c) then Power else Dead
    case Dead => Dead
  }

  predicate Accepting(q: State) { q == Zero || q == Whole || q == Fraction || q == Power }

  function Run(q: State, s: string): State
    decreases s
  {
    if s == [] then q else Run(Delta(q, s[0]), s[1..])
  }

  lemma {:induction false} RunDead(s: string)
    ensures Run(Dead, s) == Dead
  {
    if s != [] { RunDead(s[1..]); }
  }

  lemma {:induction false} RunMore(q: State, s: string, t: string)
    ensures Run(q, s + t) == Run(Run(q, s), t)
    decreases s
  {
    if s == [] {
      assert s + t == t;
    } else {
      assert (s + t)[1..] == s[1..] + t;
      RunMore(Delta(q, s[0]), s[1..], t);
    }
  }

  // What is accepted from each state is what the grammar allows to follow.

  lemma {:induction false} FromPower(s: string)
    ensures Accepting(Run(Power, s)) <==> Digits(s)
  {
    if s != [] {
      if IsDigit(s[0]) { FromPower(s[1..]); DigitsCons(s); } else { RunDead(s[1..]); }
    }
  }

  lemma DigitsCons(s: string)
    requires s != []
    ensures Digits(s) <==> IsDigit(s[0]) && Digits(s[1..])
  {
    if IsDigit(s[0]) && Digits(s[1..]) {
      forall i | 0 <= i < |s| ensures IsDigit(s[i]) { assert i > 0 ==> s[i] == s[1..][i - 1]; }
    }
  }

  lemma FromExponent(s: string)
    ensures Accepting(Run(Exponent, s)) <==> IsPower(s)
  {
    if s != [] {
      if IsSign(s[0]) {
        if |s| >= 2 {
          DigitsCons(s[1..]);
          if IsDigit(s[1]) { FromPower(s[2..]); assert s[1..][1..] == s[2..]; } else { RunDead(s[1..][1..]); }
        }
      } else if IsDigit(s[0]) {
        FromPower(s[1..]);
        DigitsCons(s);
      } else {
        RunDead(s[1..]);
      }
    }
  }

  lemma EOrDead(q: State, s: string)
    requires s != [] && (Delta(q, s[0]) == if IsE(s[0]) then Exponent else Dead)
    ensures Accepting(Run(q, s)) <==> IsExp(s)
  {
    if IsE(s[0]) { FromExponent(s[1..]); } else { RunDead(s[1..]); }
  }

  ghost predicate DigitsExp(s: string, j: nat) { j <= |s| && Digits(s[..j]) && IsExp(s[j..]) }

  lemma DigitsExpUp(s: string, j: nat)
    requires s != [] && IsDigit(s[0]) && DigitsExp(s[1..], j)
    ensures DigitsExp(s, j + 1)
  {
    assert s[..j + 1][1..] == s[1..][..j] && s[j + 1..] == s[1..][j..];
    DigitsCons(s[..j + 1]);
  }

  lemma DigitsExpDown(s: string, j: nat)
    requires s != [] && DigitsExp(s, j)
    ensures if IsDigit(s[0]) then j > 0 && DigitsExp(s[1..], j - 1) else j == 0
  {
    if j > 0 {
      assert s[..j][1..] == s[1..][..j - 1] && s[j..] == s[1..][j - 1..];
      DigitsCons(s[..j]);
    } else {
      assert s[0..] == s;
    }
  }

  /** After a fraction has begun: more digits, and perhaps an exponent. */
  lemma {:induction false} FromFraction(s: string)
    ensures Accepting(Run(Fraction, s)) <==> exists j: nat :: DigitsExp(s, j)
  {
    if s == [] {
      assert DigitsExp(s, 0);
    } else {
      if j: nat :| DigitsExp(s, j) { DigitsExpDown(s, j); }
      if IsDigit(s[0]) {
        FromFraction(s[1..]);
        if j: nat :| DigitsExp(s[1..], j) { DigitsExpUp(s, j); }
      } else {
        EOrDead(Fraction, s);
        assert s[0..] == s;
        assert DigitsExp(s, 0) <==> IsExp(s);
      }
    }
  }

  /** After the integer part: perhaps a fraction, and perhaps an exponent. */
  lemma FromZero(s: string)
    ensures Accepting(Run(Zero, s)) <==> exists j: nat :: FracExp(s, j)
  {
    if s == [] {
      assert FracExp(s, 0);
    } else if s[0] == '.' {
      if |s| >= 2 && IsDigit(s[1]) {
        FromFraction(s[2..]);
        assert s[1..][1..] == s[2..];
        PointDigits(s);
      } else {
        if |s| >= 2 { RunDead(s[1..][1..]); }
        if j: nat :| FracExp(s, j) { assert j >= 2 ==> s[..j][1..][0] == s[1]; }
      }
    } else {
      EOrDead(Zero, s);
      assert s[0..] == s;
      assert FracExp(s, 0) <==> IsExp(s);
    }
  }

  lemma PointDigits(s: string)
    requires |s| >= 2 && s[0] == '.' && IsDigit(s[1])
    ensures (exists j: nat :: DigitsExp(s[2..], j)) <==> exists j: nat :: FracExp(s, j)
  {
    if j: nat :| DigitsExp(s[2..], j) {
      assert s[..j + 2][1..][1..] == s[2..][..j] && s[j + 2..] == s[2..][j..];
      DigitsCons(s[..j + 2][1..]);
      assert FracExp(s, j + 2);
    }
    if j: nat :| FracExp(s, j) {
      assert s[0..] == s && j >= 2;
      assert s[..j][1..][1..] == s[2..][..j - 2] && s[j..] == s[2..][j - 2..];
      DigitsCons(s[..j][1..]);
      assert DigitsExp(s[2..], j - 2);
    }
  }

  ghost predicate DigitsFracExp(s: string, i: nat) { i <= |s| && Digits(s[..i]) && exists j: nat :: FracExp(s[i..], j) }

  /** After a digit from 1 to 9: more digits, and then as after a zero. */
  lemma {:induction false} FromWhole(s: string)
    ensures Accepting(Run(Whole, s)) <==> exists i: nat :: DigitsFracExp(s, i)
  {
    if s == [] {
      assert FracExp(s[0..], 0);
      assert DigitsFracExp(s, 0);
    } else if IsDigit(s[0]) {
      FromWhole(s[1..]);
      if i: nat :| DigitsFracExp(s[1..], i) {
        assert s[..i + 1][1..] == s[1..][..i] && s[i + 1..] == s[1..][i..];
        DigitsCons(s[..i + 1]);
        assert DigitsFracExp(s, i + 1);
      }
      if i: nat :| DigitsFracExp(s, i) {
        NoFracAtDigit(s, i);
        assert s[..i][1..] == s[1..][..i - 1] && s[i..] == s[1..][i - 1..];
        DigitsCons(s[..i]);
        assert DigitsFracExp(s[1..], i - 1);
      }
    } else {
      FromZero(s);
      assert s[0..] == s;
      if i: nat :| DigitsFracExp(s, i) { assert i > 0 ==> s[..i][0] == s[0]; }
      assert DigitsFracExp(s, 0) <==> exists j: nat :: FracExp(s, j);
    }
  }

  lemma NoFracAtDigit(s: string, i: nat)
    requires s != [] && IsDigit(s[0]) && DigitsFracExp(s, i)
    ensures i > 0
  {
    assert s[0..] == s;
  }

  lemma FromMinus(s: string)
    ensures Accepting(Run(Minus, s)) <==> IsUnsigned(s)
  {
    if s == [] {
    } else if s[0] == '0' {
      ZeroInt(s);
    } else if IsDigit(s[0]) {
      WholeInt(s);
    } else {
      RunDead(s[1..]);
    }
  }

  lemma ZeroInt(s: string)
    requires s != [] && s[0] == '0'
    ensures Accepting(Run(Zero, s[1..])) <==> IsUnsigned(s)
  {
    FromZero(s[1..]);
    if j: nat :| FracExp(s[1..], j) { assert s[..1] == "0" && IntFracExp(s, 1); }
    if i: nat :| IntFracExp(s, i) { assert i > 0 && s[..i][0] == s[0]; }
  }

  lemma WholeInt(s: string)
    requires s != [] && '1' <= s[0] <= '9'
    ensures Accepting(Run(Whole, s[1..])) <==> IsUnsigned(s)
  {
    FromWhole(s[1..]);
    if i: nat :| DigitsFracExp(s[1..], i) { IntUp(s, i); }
    if i: nat :| IntFracExp(s, i) { IntDown(s, i); }
  }

  lemma IntUp(s: string, i: nat)
    requires s != [] && '1' <= s[0] <= '9' && DigitsFracExp(s[1..], i)
    ensures IntFracExp(s, i + 1)
  {
    assert s[..i + 1][1..] == s[1..][..i] && s[i + 1..] == s[1..][i..];
  }

  lemma IntDown(s: string, i: nat)
    requires s != [] && '1' <= s[0] <= '9' && IntFracExp(s, i)
    ensures i > 0 && DigitsFracExp(s[1..], i - 1)
  {
    assert i > 0 && s[..i][0] == s[0] && s[..i][1..] == s[1..][..i - 1] && s[i..] == s[1..][i - 1..];
  }

  /** The automaton accepts exactly the numbers of the grammar. */
  lemma AcceptsNumbers(s: string)
    ensures Accepting(Run(Begin, s)) <==> IsNumber(s)
  {
    if s != [] && s[0] == '-' {
      FromMinus(s[1..]);
    } else {
      FromMinus(s);
    }
  }

  // ----- The longest number -----

  /** Where the automaton, in state q at position i, accepts last; `best` is where it has accepted last before. */
  function NumberEnd(s: string, q: State, i: nat, best: nat): nat
    requires i <= |s|
    decreases |s| - i
  {
    if i < |s| && Delta(q, s[i]) != Dead
    then NumberEnd(s, Delta(q, s[i]), i + 1, if Accepting(Delta(q, s[i])) then i + 1 else best)
    else best
  }

  lemma RunTo(s: string, p: nat, i: nat)
    requires p <= i < |s|
    ensures Run(Begin, s[p..i + 1]) == Delta(Run(Begin, s[p..i]), s[i])
  {
    RunMore(Begin, s[p..i], [s[i]]);
    assert s[p..i] + [s[i]] == s[p..i + 1];
  }

  lemma DeadBeyond(s: string, p: nat, i: nat, f: nat)
    requires p <= i < f <= |s| && Delta(Run(Begin, s[p..i]), s[i]) == Dead
    ensures !IsNumber(s[p..f])
  {
    RunTo(s, p, i);
    RunMore(Begin, s[p..i + 1], s[i + 1..f]);
    assert s[p..i + 1] + s[i + 1..f] == s[p..f];
    RunDead(s[i + 1..f]);
    AcceptsNumbers(s[p..f]);
  }

  /** NumberEnd is the end of the longest number, or p if there is none. */
  lemma {:induction false} NumberEndIsLongest(s: string, p: nat, i: nat, best: nat)
    requires p <= best <= i <= |s|
    requires best > p ==> IsNumber(s[p..best])
    requires forall f :: best < f <= i ==> !IsNumber(s[p..f])
    ensures var e := NumberEnd(s, Run(Begin, s[p..i]), i, best);
      p <= e <= |s| && (e > p ==> LongestNumber(s, p, e)) && (e == p ==> forall f ::
                                                                           p < f <= |s| ==> !IsNumber(s[p..f]))
    decreases |s| - i
  {
    var q := Run(Begin, s[p..i]);
    if i < |s| {
      if Delta(q, s[i]) != Dead {
        RunTo(s, p, i);
        AcceptsNumbers(s[p..i + 1]);
        NumberEndIsLongest(s, p, i + 1, if Accepting(Delta(q, s[i])) then i + 1 else best);
      } else {
        forall f | i < f <= |s| ensures !IsNumber(s[p..f]) { DeadBeyond(s, p, i, f); }
      }
    }
  }

  function NumberFrom(s: string, p: nat): nat
    requires p <= |s|
  {
    NumberEnd(s, Begin, p, p)
  }

  lemma NumberFromIsLongest(s: string, p: nat)
    requires p <= |s|
    ensures p <= NumberFrom(s, p) <= |s|
    ensures NumberFrom(s, p) > p ==> LongestNumber(s, p, NumberFrom(s, p))
    ensures NumberFrom(s, p) == p ==> NoNumber(s, p)
  {
    assert s[p..p] == [];
    NumberEndIsLongest(s, p, p, p);
    assert !IsNumber([]) by { AcceptsNumbers([]); }
  }

  // ----- Strings -----

  predicate FourHex(s: string, i: nat) {
    IsHex(Ch(s, i)) && IsHex(Ch(s, i + 1)) && IsHex(Ch(s, i + 2)) && IsHex(Ch(s, i + 3))
  }

  /** How long the escape sequence at i is; 0 if it is none. */
  function EscapeLength(s: string, i: nat): nat {
    var d := Ch(s, i + 1);
    if d == '"' || d == '/' || d == '\\' || d == 'b' || d == 'f' || d == 'n' || d == 'r' || d == 't' then 2
    else if d == 'u' && FourHex(s, i + 2) then 6
    else 0
  }

  /** The position after the closing quote of the string whose characters start at i, if it is well formed. */
  function StringEnd(s: string, i: nat): (e: Option<nat>)
    ensures e.Some? ==> i < e.value <= |s|
    decreases |s| - i
  {
    if Ch(s, i) == NUL then None
    else if s[i] == '"' then Some(i + 1)
    else if s[i] == '\\' then if EscapeLength(s, i) == 0 then None else StringEnd(s, i + EscapeLength(s, i))
    else StringEnd(s, i + 1)
  }

  /** How many backslashes there are in a row right before position q, not counting any before lo. */
  function Backslashes(s: string, lo: nat, q: nat): nat
    requires q <= |s|
  {
    if q > lo && s[q - 1] == '\\' then 1 + Backslashes(s, lo, q - 1) else 0
  }

  /** A quote is unescaped if an even number of backslashes stands in front of it. */
  predicate Unescaped(s: string, lo: nat, q: nat)
    requires q <= |s|
  {
    Backslashes(s, lo, q) % 2 == 0
  }

  /** A string token ends at its first unescaped quote. */
  lemma {:induction false} EndsAtFirstQuote(s: string, lo: nat, i: nat)
    requires lo <= i <= |s| && StringEnd(s, i).Some? && Unescaped(s, lo, i)
    ensures var q := StringEnd(s, i).value - 1;
      && i <= q < |s| && s[q] == '"' && Unescaped(s, lo, q)
      && forall r :: i <= r < q && s[r] == '"' ==> !Unescaped(s, lo, r)
    decreases |s| - i
  {
    if s[i] == '\\' {
      var n := EscapeLength(s, i);
      assert Backslashes(s, lo, i + 1) == 1 + Backslashes(s, lo, i);
      if s[i + 1] == '\\' { assert Backslashes(s, lo, i + 2) == 1 + Backslashes(s, lo, i + 1); }
      EndsAtFirstQuote(s, lo, i + n);
    } else if s[i] != '"' {
      EndsAtFirstQuote(s, lo, i + 1);
    }
  }

  // ----- Tokens -----

  /** A token, with m_start and m_cursor after it has been scanned. */
  datatype Lexed = Lexed(token: Token, start: nat, cursor: nat)

  /** A literal, or an error behind its first character. */
  function LiteralAt(s: string, p: nat, word: string, token: Token): Lexed
    requires |word| > 0
  {
    if p + |word| <= |s| && s[p..p + |word|] == word then Lexed(token, p, p + |word|) else Lexed(ParseError, p, p + 1)
  }

  /** The token at or after position p. */
  function TokenFrom(s: string, p: nat): (l: Lexed)
    requires p <= |s|
    ensures p <= l.start < l.cursor && l.start <= |s|
    decreases |s| - p
  {
    var c := Ch(s, p);
    if p < |s| && IsSpace(c) then TokenFrom(s, p + 1)
    else if c == NUL then Lexed(EndOfInput, p, p + 1)
    else if c == '[' then Lexed(BeginArray, p, p + 1)
    else if c == ']' then Lexed(EndArray, p, p + 1)
    else if c == '{' then Lexed(BeginObject, p, p + 1)
    else if c == '}' then Lexed(EndObject, p, p + 1)
    else if c == ',' then Lexed(ValueSeparator, p, p + 1)
    else if c == ':' then Lexed(NameSeparator, p, p + 1)
    else if c == 'n' then LiteralAt(s, p, "null", LiteralNull)
    else if c == 't' then LiteralAt(s, p, "true", LiteralTrue)
    else if c == 'f' then LiteralAt(s, p, "false", LiteralFalse)
    else if c == '-' || IsDigit(c) then
      if NumberFrom(s, p) > p then Lexed(ValueNumber, p, NumberFrom(s, p)) else Lexed(ParseError, p, p + 1)
    else if c == '"' then
      match StringEnd(s, p + 1)
      case Some(e) => Lexed(ValueString, p, e)
      case None => Lexed(ParseError, p, p + 1)
    else Lexed(ParseError, p, p + 1)
  }

  /** Exactly the white space in front of a token is skipped. */
  lemma {:induction false} SkipsWhiteSpace(s: string, p: nat)
    requires p <= |s|
    ensures var l := TokenFrom(s, p);
      (forall i :: p <= i < l.start ==> IsSpace(s[i])) && !IsSpace(Ch(s, l.start)) && l == TokenFrom(s, l.start)
    decreases |s| - p
  {
    if p < |s| && IsSpace(s[p]) { SkipsWhiteSpace(s, p + 1); }
  }

  /** A number token is the longest number there is at its start, and where a number could start but no number
      token is found, there is none. */
  lemma NumberTokens(s: string, p: nat)
    requires p <= |s|
    ensures var l := TokenFrom(s, p);
      && (l.token == ValueNumber ==> LongestNumber(s, l.start, l.cursor))
      && (IsDigit(Ch(s, l.start)) || Ch(s, l.start) == '-' ==>
            l.token == ValueNumber || (l.token == ParseError && NoNumber(s, l.start)))
  {
    SkipsWhiteSpace(s, p);
    NumberFromIsLongest(s, TokenFrom(s, p).start);
  }

  /** A string token goes from its opening quote to the first unescaped quote after it. */
  lemma StringTokens(s: string, p: nat)
    requires p <= |s| && TokenFrom(s, p).token == ValueString
    ensures var l := TokenFrom(s, p);
      && l.start + 2 <= l.cursor <= |s| && s[l.start] == '"' == s[l.cursor - 1]
      && Unescaped(s, l.start + 1, l.cursor - 1)
      && forall r :: l.start < r < l.cursor - 1 && s[r] == '"' ==> !Unescaped(s, l.start + 1, r)
  {
    SkipsWhiteSpace(s, p);
    var l := TokenFrom(s, p);
    EndsAtFirstQuote(s, l.start + 1, l.start + 1);
  }

  /** The lexer's view of its buffer: m_start and m_cursor as positions. */
  class Lexer {
    const content: string
    var start: nat
    var cursor: nat

    constructor (content: string)
      ensures this.content == content && start == cursor == 0
    {
      this.content := content;
      start, cursor := 0, 0;
    }

    /** lexer::scan */
    method Scan() returns (token: Token)
      requires cursor <= |content|
      modifies this
      ensures Lexed(token, start, cursor) == TokenFrom(content, old(cursor))
    {
      while cursor < |content| && IsSpace(content[cursor])
        invariant cursor <= |content| && TokenFrom(content, cursor) == TokenFrom(content, old(cursor))
      {
        cursor := cursor + 1;
      }
      start := cursor;
      var c := Ch(content, cursor);
      if c == '-' || IsDigit(c) {
        token := ScanNumber();
      } else if c == '"' {
        token := ScanString();
      } else if c == 'n' {
        token := ScanLiteral("null", LiteralNull);
      } else if c == 't' {
        token := ScanLiteral("true", LiteralTrue);
      } else if c == 'f' {
        token := ScanLiteral("false", LiteralFalse);
      } else {
        cursor := cursor + 1;
        token :=
          if c == NUL then EndOfInput
          else if c == '[' then BeginArray else if c == ']' then EndArray
          else if c == '{' then BeginObject else if c == '}' then EndObject
          else if c == ',' then ValueSeparator else if c == ':' then NameSeparator
          else ParseError;
      }
    }

    /** Runs the automaton as far as it goes; if it does not stop in an accepting state, it goes back to the
        marker, where it accepted last. */
    method ScanNumber() returns (token: Token)
      requires start == cursor < |content| && (content[start] == '-' || IsDigit(content[start]))
      modifies this`cursor
      ensures Lexed(token, start, cursor) == (
        var e := NumberFrom(content, start);
        if e > start then Lexed(ValueNumber, start, e) else Lexed(ParseError, start, start + 1))
    {
      var q, marker := Begin, start;
      while cursor < |content| && Delta(q, content[cursor]) != Dead
        invariant start <= marker <= cursor <= |content|
        invariant var best := if Accepting(q) then cursor else marker;
          NumberEnd(content, q, cursor, best) == NumberFrom(content, start)
        invariant q != Power && Accepting(q) ==> marker == cursor
        invariant q == Begin || q == Minus ==> marker == start
        invariant q == Begin ==> cursor == start
        invariant q == Minus ==> cursor == start + 1
        invariant marker == start ==> q == Begin || q == Minus
        invariant q != Dead
      {
        q, cursor := Delta(q, content[cursor]), cursor + 1;
        if q == Zero || q == Whole || q == Fraction { marker := cursor; }
      }
      if Accepting(q) {
        token := ValueNumber;
      } else if marker > start {
        cursor := marker;
        token := ValueNumber;
      } else {
        token := ParseError;
      }
    }

    method ScanString() returns (token: Token)
      requires start == cursor < |content| && content[start] == '"'
      modifies this`cursor
      ensures Lexed(token, start, cursor) == match StringEnd(content, start + 1)
        case Some(e) => Lexed(ValueString, start, e)
        case None => Lexed(ParseError, start, start + 1)
    {
      cursor := cursor + 1;
      var marker := cursor;
      while true
        invariant start < cursor <= |content| && StringEnd(content, cursor) == StringEnd(content, start + 1)
        decreases |content| - cursor
      {
        var c := Ch(content, cursor);
        if c == NUL { break; }
        if c == '"' {
          cursor := cursor + 1;
          return ValueString;
        }
        var n := if c == '\\' then EscapeLength(content, cursor) else 1;
        if n == 0 { break; }
        cursor := cursor + n;
      }
      cursor := marker;
      return ParseError;
    }

    /** The letters of a literal, one after the other, or back to the marker behind the first. */
    method ScanLiteral(word: string, found: Token) returns (token: Token)
      requires start == cursor < |content| && word != [] && word[0] == content[start]
      modifies this`cursor
      ensures Lexed(token, start, cursor) == LiteralAt(content, start, word, found)
    {
      var i := 1;
      while i < |word|
        invariant 1 <= i <= |word| && start + i <= |content| && content[start..start + i] == word[..i]
      {
        if start + i >= |content| || content[start + i] != word[i] {
          if start + |word| <= |content| && start + i < |content| {
            assert content[start..start + |word|][i] == content[start + i];
          }
          cursor := start + 1;
          return ParseError;
        }
        assert content[start..start + i + 1] == content[start..start + i] + [content[start + i]];
        i := i + 1;
      }
      assert word[..i] == word;
      cursor := start + i;
      return found;
    }
  }
}
