/** The numerals that occur in names: what fmt prints for %x and %0*d, and what
    strconv.ParseInt reads back. */
module Numerals {
  import opened Strings

  const DIGITS := "0123456789abcdef"

  /** The value of a digit, or 16 when c is none.  ParseInt takes both cases. */
  function DigitValue(c: char): (d: nat)
    ensures d <= 16
  {
    if '0' <= c <= '9' then c as int - '0' as int
    else if 'a' <= c <= 'f' then 10 + (c as int - 'a' as int)
    else if 'A' <= c <= 'F' then 10 + (c as int - 'A' as int)
    else 16
  }

  predicate AllDigits(s: string, base: nat) {
    forall c :: c in s ==> DigitValue(c) < base
  }

  /** The number written by s, most significant digit first. */
  function Magnitude(s: string, base: nat): nat {
    if s == "" then 0 else Magnitude(s[..|s| - 1], base) * base + DigitValue(s[|s| - 1])
  }

  /** fmt's %x or %d: lower case, no leading zeros. */
  function Print(n: nat, base: nat): (s: string)
    requires 2 <= base <= 16
    ensures s != ""
    decreases n
  {
    if n < base then [DIGITS[n]]
    else
      DivideShrinks(n, base);
      Print(n / base, base) + [DIGITS[n % base]]
  }

  lemma DigitRoundTrip(d: nat)
    requires d < 16
    ensures DigitValue(DIGITS[d]) == d
    ensures DIGITS[d] != '_' && DIGITS[d] != '-' && DIGITS[d] != '+'
  {
  }

  /** Printing and reading back. */
  lemma {:induction false} PrintedDigits(n: nat, base: nat)
    requires 2 <= base <= 16
    ensures AllDigits(Print(n, base), base)
    ensures Magnitude(Print(n, base), base) == n
    ensures Print(n, base)[0] == '0' ==> n == 0
    ensures forall c :: c in Print(n, base) ==> c in DIGITS
    decreases n
  {
    var s := Print(n, base);
    var last := if n < base then n else n % base;
    DigitRoundTrip(last);
    assert s[|s| - 1] == DIGITS[last];
    if n < base {
      assert s[..0] == "" && Magnitude(s[..0], base) == 0;
      assert Magnitude(s, base) == Magnitude(s[..|s| - 1], base) * base + DigitValue(s[|s| - 1]);
    } else {
      DivideShrinks(n, base);
      PrintedDigits(n / base, base);
      assert s[..|s| - 1] == Print(n / base, base);
      assert Magnitude(s, base) == n / base * base + last;
    }
  }

  lemma DivideShrinks(n: nat, base: nat)
    requires 2 <= base <= n
    ensures 1 <= n / base < n && n == n / base * base + n % base
  {
  }

  /** strconv.ParseInt(s, base, bits) for base 10 or 16: an optional sign, then
      at least one digit, and the value must fit. */
  function ParseInt(s: string, base: nat, bound: nat): (r: Option<int>)
    requires 2 <= base <= 16
  {
    if s == "" then None
    else
      var negative := s[0] == '-';
      var digits := if s[0] == '-' || s[0] == '+' then s[1..] else s;
      if digits == "" || !AllDigits(digits, base) then None
      else
        var m: int := Magnitude(digits, base);
        if negative then if m <= bound then Some(-m) else None
        else if m < bound then Some(m) else None
  }

  /** What ParseInt accepts has only signs and digits in it. */
  lemma ParsedText(s: string, base: nat, bound: nat)
    requires 2 <= base <= 16 && ParseInt(s, base, bound).Some?
    ensures '_' !in s && '/' !in s && s != ""
  {
    assert s == [s[0]] + s[1..];
  }

  lemma ParsePrinted(n: nat, base: nat, bound: nat)
    requires 2 <= base <= 16 && n < bound
    ensures ParseInt(Print(n, base), base, bound) == Some(n)
  {
    PrintedDigits(n, base);
    assert Print(n, base)[0] in DIGITS;
  }

  // ---- what numerals mean ----

  /** What a digit is worth, said of the characters; None if it is no digit. */
  function Worth(c: char): Option<nat> {
    if c in "0123456789" then Some(c as int - '0' as int)
    else if c in "abcdef" then Some(c as int - 'a' as int + 10)
    else if c in "ABCDEF" then Some(c as int - 'A' as int + 10)
    else None
  }

  predicate IsNumeral(s: string, base: nat) {
    s != "" && forall c :: c in s ==> Worth(c).Some? && Worth(c).value < base
  }

  function Power(base: nat, k: nat): nat {
    if k == 0 then 1 else base * Power(base, k - 1)
  }

  /** The sum of its digits, each times a power of the base. */
  function Sum(s: string, base: nat): nat {
    if s == "" then 0
    else (if Worth(s[0]).Some? then Worth(s[0]).value else 0) * Power(base, |s| - 1) + Sum(s[1..], base)
  }

  lemma WorthIs(c: char)
    ensures DigitValue(c) < 16 <==> Worth(c).Some?
    ensures Worth(c).Some? ==> DigitValue(c) == Worth(c).value
    ensures Worth(c).None? ==> DigitValue(c) == 16
  {
    InRange(c);
  }

  lemma InRange(c: char)
    ensures c in "0123456789" <==> '0' <= c <= '9'
    ensures c in "abcdef" <==> 'a' <= c <= 'f'
    ensures c in "ABCDEF" <==> 'A' <= c <= 'F'
  {
  }

  lemma NumeralIs(s: string, base: nat)
    requires base <= 16
    ensures IsNumeral(s, base) <==> s != "" && AllDigits(s, base)
  {
    hide DigitValue, Worth;
    forall c | c in s
      ensures DigitValue(c) < base <==> Worth(c).Some? && Worth(c).value < base
    {
      WorthIs(c);
    }
  }

  /** From the first digit on, as from the last. */
  lemma {:induction false} SumSnoc(s: string, c: char, base: nat)
    ensures Sum(s + [c], base) == Sum(s, base) * base + (if Worth(c).Some? then Worth(c).value else 0)
    decreases |s|
  {
    hide Worth;
    var t := s + [c];
    if s == "" {
      assert t[1..] == "" && Power(base, 0) == 1;
    } else {
      assert t[1..] == s[1..] + [c] && t[0] == s[0];
      SumSnoc(s[1..], c, base);
      var w, p := if Worth(s[0]).Some? then Worth(s[0]).value else 0, Power(base, |s| - 1);
      assert Power(base, |s|) == base * p;
      assert w * (base * p) == (w * p) * base;
      Distribute(w * p, Sum(s[1..], base), base);
    }
  }

  lemma Distribute(a: nat, b: nat, c: nat)
    ensures (a + b) * c == a * c + b * c
  {
  }

  lemma {:induction false} MagnitudeIsSum(s: string, base: nat)
    requires base <= 16 && AllDigits(s, base)
    ensures Magnitude(s, base) == Sum(s, base)
    decreases |s|
  {
    hide DigitValue, Worth;
    if s != "" {
      var front, c := s[..|s| - 1], s[|s| - 1];
      assert s == front + [c] && c in s;
      MagnitudeIsSum(front, base);
      SumSnoc(front, c, base);
      WorthIs(c);
    }
  }

  /** The text is these digits, perhaps behind a sign, and writes the number v. */
  predicate WritesWith(s: string, base: nat, v: int, d: string) {
    && IsNumeral(d, base)
    && ((s == "-" + d && v == 0 - Sum(d, base)) || ((s == d || s == "+" + d) && v == Sum(d, base)))
  }

  /** ParseInt reads just the texts that write a number within the bounds. */
  lemma ParseIntIff(s: string, base: nat, bound: nat, v: int)
    requires 2 <= base <= 16 && bound >= 1
    ensures ParseInt(s, base, bound) == Some(v)
       <==> 0 - bound <= v < bound && exists d: string :: WritesWith(s, base, v, d)
  {
    hide Magnitude, AllDigits, IsNumeral, Sum;
    NoEmptyNumeral(base);
    var digits := if s != "" && (s[0] == '-' || s[0] == '+') then s[1..] else s;
    NumeralIs(digits, base);
    if IsNumeral(digits, base) {
      NumeralStarts(digits, base);
      MagnitudeIsSum(digits, base);
      assert s == [s[0]] + s[1..];
      assert ParseInt(s, base, bound) == Some(v) ==> WritesWith(s, base, v, digits);
    }
    forall d: string | WritesWith(s, base, v, d)
      ensures d == digits
    {
      NumeralStarts(d, base);
    }
  }

  lemma NoEmptyNumeral(base: nat)
    ensures !IsNumeral("", base)
  {
  }

  lemma NumeralStarts(d: string, base: nat)
    requires IsNumeral(d, base)
    ensures d != "" && d[0] != '-' && d[0] != '+' && ("-" + d)[1..] == d && ("+" + d)[1..] == d
  {
    assert d[0] in d;
  }

  /** Print writes the number in small digits, without leading zeros. */
  lemma PrintIs(n: nat, base: nat)
    requires 2 <= base <= 16
    ensures var s := Print(n, base);
            && IsNumeral(s, base) && Sum(s, base) == n && (s[0] == '0' ==> s == "0")
            && forall c :: c in s ==> c in "0123456789abcdef"
  {
    hide Print, Magnitude, Sum, IsNumeral;
    PrintedDigits(n, base);
    var s := Print(n, base);
    NumeralIs(s, base);
    MagnitudeIsSum(s, base);
    if s[0] == '0' {
      PrintZero(base);
    }
  }

  lemma PrintZero(base: nat)
    requires 2 <= base <= 16
    ensures Print(0, base) == "0"
  {
  }
}
