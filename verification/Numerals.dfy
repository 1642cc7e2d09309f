/** Decimal numerals: the digits of a number, and the number that digits stand for. */
module Numerals {

  predicate IsDigit(c: char) { '0' <= c <= '9' }

  predicate Digits(s: string) { forall i :: 0 <= i < |s| ==> IsDigit(s[i]) }

  function DigitsOf(n: nat): (s: string)
    ensures s != []
  {
    if n < 10 then ['0' + n as char] else DigitsOf(n / 10) + ['0' + (n % 10) as char]
  }

  /** std::to_string */
  function Decimal(n: int): (s: string)
    ensures s != []
  {
    if n < 0 then "-" + DigitsOf(-n) else DigitsOf(n)
  }

  function DigitsValue(s: string): int {
    if s == [] then 0 else 10 * DigitsValue(s[..|s| - 1]) + (s[|s| - 1] as int - '0' as int)
  }

  /** The digits of a number stand for it, and only zero begins with a zero. */
  lemma {:induction false} DigitsRead(n: nat)
    ensures Digits(DigitsOf(n)) && DigitsValue(DigitsOf(n)) == n
    ensures n > 0 ==> '1' <= DigitsOf(n)[0] <= '9'
  {
    var t := DigitsOf(n);
    if n < 10 {
      assert t[..0] == [];
    } else {
      DigitsRead(n / 10);
      assert t[..|t| - 1] == DigitsOf(n / 10) && t[0] == DigitsOf(n / 10)[0];
    }
  }
}
