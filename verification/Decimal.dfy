/** Decimal numerals: what a template literal prints for a length, and what `parseInt(m, 10)` reads back. */
module Decimal {
  import opened Unicode

  function Print(n: nat): (s: string)
    ensures s != ""
    ensures forall i :: 0 <= i < |s| ==> '0' <= s[i] <= '9'
  {
    var last := [(48 + n % 10) as char];
    if n < 10 then last else Print(n / 10) + last
  }

  predicate IsDigit(b: Byte) { 48 <= b <= 57 }

  predicate AllDigits(b: seq<Byte>) { forall i :: 0 <= i < |b| ==> IsDigit(b[i]) }

  function Parse(digits: seq<Byte>): nat
    requires AllDigits(digits)
  {
    if digits == [] then 0
    else Parse(digits[..|digits| - 1]) * 10 + (digits[|digits| - 1] as int - 48)
  }

  lemma PrintsDigits(n: nat)
    ensures IsAscii(Print(n))
    ensures Utf8(Print(n)) != [] && AllDigits(Utf8(Print(n)))
  {
    AsciiIsItsOwnEncoding(Print(n));
  }

  lemma {:induction false} ParseUndoesPrint(n: nat)
    ensures AllDigits(Utf8(Print(n))) && Parse(Utf8(Print(n))) == n
  {
    PrintsDigits(n);
    var d := (48 + n % 10) as char;
    assert Utf8([d]) == [d as Byte];
    if n >= 10 {
      ParseUndoesPrint(n / 10);
      Utf8Appends(Print(n / 10), [d]);
      assert Utf8(Print(n))[..|Utf8(Print(n))| - 1] == Utf8(Print(n / 10));
    }
  }

  function Power(n: nat): nat { if n == 0 then 1 else 10 * Power(n - 1) }

  /** A numeral is positional: its first digit counts a power of ten for each digit that follows. */
  lemma {:induction false} ParseIsPositional(digit: Byte, rest: seq<Byte>)
    requires AllDigits([digit] + rest)
    ensures forall i :: 0 <= i < |rest| ==> 48 <= rest[i] <= 57
    ensures Parse([digit] + rest) == (digit as int - 48) * Power(|rest|) + Parse(rest)
    decreases |rest|
  {
    var digits := [digit] + rest;
    assert forall i :: 0 <= i < |rest| ==> rest[i] == digits[i + 1];
    if rest == [] {
      assert digits[..0] == [];
    } else {
      var init := rest[..|rest| - 1];
      assert digits[..|digits| - 1] == [digit] + init;
      ParseIsPositional(digit, init);
    }
  }

  /** What is printed has no zero in front, one digit below ten, and one zero more for ten times as much. */
  lemma {:induction false} PrintIsShortest(n: nat)
    ensures Print(n)[0] == '0' <==> n == 0
    ensures n == 0 ==> Print(n) == "0"
    ensures |Print(n)| == 1 <==> n < 10
    ensures n > 0 ==> Print(10 * n) == Print(n) + "0"
  {
    if n >= 10 {
      PrintIsShortest(n / 10);
    }
  }
}
