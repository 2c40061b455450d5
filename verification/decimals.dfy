/** Decimal text, as strconv.Itoa writes it and strconv.Atoi reads it. */
module Decimals {

  predicate IsDigit(c: char) {
    '0' <= c <= '9'
  }

  predicate AllDigits(s: string) {
    forall k :: 0 <= k < |s| ==> IsDigit(s[k])
  }

  function Digit(d: nat): char
    requires d < 10
  {
    '0' + d as char
  }

  function Itoa(n: nat): (r: string)
    ensures r != [] && AllDigits(r)
  {
    if n < 10 then [Digit(n)] else Itoa(n / 10) + [Digit(n % 10)]
  }

  function Value(s: string): nat
    requires AllDigits(s)
  {
    if s == [] then 0 else 10 * Value(s[..|s| - 1]) + (s[|s| - 1] - '0') as nat
  }

  lemma {:induction false} ValueOfItoa(n: nat)
    ensures Value(Itoa(n)) == n
  {
    if n >= 10 {
      ValueOfItoa(n / 10);
      assert Itoa(n)[..|Itoa(n)| - 1] == Itoa(n / 10);
    }
  }

  datatype Reading = Number(value: int) | BadSyntax | OutOfRange

  predicate IsSign(c: char) {
    c == '+' || c == '-'
  }

  function Body(s: string): string {
    if s != [] && IsSign(s[0]) then s[1..] else s
  }

  const LIMIT: int := 0x8000_0000_0000_0000

  /** A sign, if any, and at least one digit, within 64 bits. */
  function Atoi(s: string): Reading {
    var body := Body(s);
    if body == [] || !AllDigits(body) then BadSyntax
    else
      var n: int := Value(body);
      var v := if s[0] == '-' then -n else n;
      if -LIMIT <= v < LIMIT then Number(v) else OutOfRange
  }

  predicate IsNumber(s: string) {
    Atoi(s).Number?
  }

  function DigitsOf(s: string): string {
    if s == [] then [] else if IsDigit(s[0]) then [s[0]] + DigitsOf(s[1..]) else DigitsOf(s[1..])
  }

  lemma {:induction false} DigitsOfDigits(s: string)
    requires AllDigits(s)
    ensures DigitsOf(s) == s
  {
    if s != [] {
      DigitsOfDigits(s[1..]);
    }
  }

  lemma DigitsOfNumber(s: string)
    requires IsNumber(s)
    ensures DigitsOf(s) == Body(s)
  {
    DigitsOfDigits(Body(s));
  }
}
