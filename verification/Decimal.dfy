// Decimal numerals: printing with %d, and reading back with Sscanf's %d.
module Decimal {
  import opened Base

  const MAX_INT := 0x7FFF_FFFF_FFFF_FFFF

  predicate IsDigit(c: char) { '0' <= c <= '9' }

  function DigitOf(c: char): nat
    requires IsDigit(c)
  {
    c as nat - '0' as nat
  }

  function Print(n: nat): (s: string)
    ensures s != "" && forall c :: c in s ==> IsDigit(c)
  {
    if n < 10 then [('0' as int + n) as char] else Print(n / 10) + Print(n % 10)
  }

  function PrintInt(n: int): string { if n < 0 then "-" + Print(-n) else Print(n) }

  // The value of a string of digits.
  function Value(s: string): nat
    requires forall c :: c in s ==> IsDigit(c)
  {
    if s == "" then 0 else 10 * Value(s[..|s| - 1]) + DigitOf(s[|s| - 1])
  }

  // The digits at the start of s.
  function Digits(s: string): (d: string)
    ensures d <= s && forall c :: c in d ==> IsDigit(c)
  {
    if s == "" || !IsDigit(s[0]) then "" else [s[0]] + Digits(s[1..])
  }

  // Sscanf("%d") into a variable that holds 0: a sign and digits, 0 when there are none or
  // the number does not fit; what follows the digits is ignored.
  function Scan(s: string): int {
    var signed := s != "" && (s[0] == '-' || s[0] == '+');
    var digits := Digits(if signed then s[1..] else s);
    var n: int := Value(digits);
    if signed && s[0] == '-' then (if n > MAX_INT + 1 then 0 else -n) else if n > MAX_INT then 0 else n
  }

  lemma {:induction false} PrintValue(n: nat)
    ensures Value(Print(n)) == n
  {
    if n >= 10 {
      PrintValue(n / 10);
      var last := Print(n % 10);
      assert last[..0] == "";
      assert Print(n)[..|Print(n)| - 1] == Print(n / 10);
    } else {
      assert Print(n)[..0] == "";
    }
  }

  lemma {:induction false} AllDigits(s: string)
    requires forall c :: c in s ==> IsDigit(c)
    ensures Digits(s) == s
  {
    if s != "" {
      AllDigits(s[1..]);
    }
  }

  lemma {:induction false} DigitsThenOther(digits: string, other: string)
    requires (forall c :: c in digits ==> IsDigit(c)) && (other != "" ==> !IsDigit(other[0]))
    ensures Digits(digits + other) == digits
  {
    if digits == "" {
      assert digits + other == other;
    } else {
      assert (digits + other)[1..] == digits[1..] + other;
      DigitsThenOther(digits[1..], other);
      assert [digits[0]] + digits[1..] == digits;
    }
  }

  // A number may carry a sign, ends at the first character that is no digit, and reads as 0
  // when it is outside the range of an int; what is no number reads as 0, too.
  lemma ScanReads(digits: string, other: string)
    requires (forall c :: c in digits ==> IsDigit(c)) && (other != "" ==> !IsDigit(other[0]))
    ensures digits != "" ==> Scan(digits + other) == if Value(digits) < 0x8000_0000_0000_0000 then Value(digits) else 0
    ensures Scan("+" + (digits + other)) == if Value(digits) < 0x8000_0000_0000_0000 then Value(digits) else 0
    ensures Scan("-" + (digits + other)) == if Value(digits) <= 0x8000_0000_0000_0000 then -(Value(digits) as int) else 0
    ensures digits == "" && (other != "" ==> other[0] != '-' && other[0] != '+') ==> Scan(digits + other) == 0
  {
    hide Digits, Value;
    DigitsThenOther(digits, other);
    assert digits == "" ==> Value(digits) == 0 by { NoValue(); }
    var text := digits + other;
    assert ("+" + text)[1..] == text && ("-" + text)[1..] == text;
    if digits != "" {
      assert text[0] == digits[0] && digits[0] in digits;
    } else {
      assert text == other;
    }
  }

  lemma NoValue()
    ensures Value("") == 0
  {
  }

  // Reading back a printed number that fits gives that number.
  lemma PrintThenScan(n: nat)
    requires n <= MAX_INT
    ensures Scan(Print(n)) == n
  {
    PrintValue(n);
    AllDigits(Print(n));
    assert Print(n)[0] in Print(n);
  }
}
