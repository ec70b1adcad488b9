// Decimal numbers as text.
module Decimal {
  import opened Wrappers

  function Digit(d: nat): (c: char)
    requires d < 10
    ensures '0' <= c <= '9'
  {
    '0' + d as char
  }

  predicate IsDigit(c: char) {
    '0' <= c <= '9'
  }

  function DigitValue(c: char): (d: nat)
    requires IsDigit(c)
    ensures d < 10
  {
    (c - '0') as nat
  }

  function Format(n: nat): string {
    if n < 10 then [Digit(n)] else Format(n / 10) + [Digit(n % 10)]
  }

  predicate IsDecimal(s: string) {
    s != "" && forall i :: 0 <= i < |s| ==> IsDigit(s[i])
  }

  function Value(s: string): nat
    requires IsDecimal(s)
  {
    var last := DigitValue(s[|s| - 1]);
    if |s| == 1 then last else Value(s[..|s| - 1]) * 10 + last
  }

  // Reading back a formatted number gives the number.
  lemma {:induction false} ValueOfFormat(n: nat)
    ensures IsDecimal(Format(n)) && Value(Format(n)) == n
    decreases n
  {
    if n >= 10 {
      ValueOfFormat(n / 10);
      var s := Format(n);
      assert s[..|s| - 1] == Format(n / 10);
    }
  }

  lemma FormatHasNo(n: nat, c: char)
    requires !IsDigit(c)
    ensures c !in Format(n)
  {
    ValueOfFormat(n);
  }

  const LIMIT: int := 0x8000_0000_0000_0000

  // Reads a signed number of at most 64 bits.
  function Atoi(s: string): Option<int> {
    var signed := s != "" && (s[0] == '+' || s[0] == '-');
    var digits := if signed then s[1..] else s;
    if !IsDecimal(digits) then None
    else
      var magnitude: int := Value(digits);
      var n := if s[0] == '-' then -magnitude else magnitude;
      if -LIMIT <= n < LIMIT then Some(n) else None
  }

  lemma AtoiOfFormat(n: nat)
    requires n < LIMIT
    ensures Atoi(Format(n)) == Some(n)
  {
    ValueOfFormat(n);
  }

  // A text is read digit by digit, the zero being character 48.
  lemma DigitsMean(s: string, c: char)
    requires 48 <= c as int <= 57
    ensures IsDecimal([c]) && Value([c]) == c as int - 48
    ensures IsDecimal(s) ==> IsDecimal(s + [c]) && Value(s + [c]) == 10 * Value(s) + (c as int - 48)
    ensures IsDecimal(s) ==> forall i :: 0 <= i < |s| ==> 48 <= s[i] as int <= 57
  {
    if IsDecimal(s) {
      assert (s + [c])[..|s|] == s;
      forall i | 0 <= i < |s|
        ensures 48 <= s[i] as int <= 57
      {
        assert IsDigit(s[i]);
      }
    }
  }

  // A printed number has no digit to spare.
  lemma {:induction false} NoLeadingZero(n: nat)
    ensures IsDecimal(Format(n)) && Value(Format(n)) == n && (n > 0 ==> Format(n)[0] != '0')
    decreases n
  {
    ValueOfFormat(n);
    if n >= 10 {
      NoLeadingZero(n / 10);
    }
  }

  // The text is these digits, perhaps behind a sign, and this number.
  ghost predicate Spells(s: string, digits: string, n: int) {
    IsDecimal(digits)
    && (((s == digits || s == "+" + digits) && n == Value(digits)) || (s == "-" + digits && 0 - n == Value(digits)))
  }

  // A signed number is an optional sign and digits, and fits 64 bits.
  lemma AtoiMeans(s: string, n: int)
    ensures Atoi(s) == Some(n) <==>
      -0x8000_0000_0000_0000 <= n < 0x8000_0000_0000_0000 && exists digits :: Spells(s, digits, n)
  {
    if Atoi(s) == Some(n) {
      var digits := if s[0] == '+' || s[0] == '-' then s[1..] else s;
      assert s == digits || s == [s[0]] + digits;
      assert Spells(s, digits, n);
    }
    if digits :| Spells(s, digits, n) {
      assert IsDigit(digits[0]);
      assert s == digits || s[1..] == digits;
    }
  }
}
