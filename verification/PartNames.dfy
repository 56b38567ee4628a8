/** Names of staged parts: zero-padded decimal numbers (bucket.go:50-53, 177-181,
    gcsmp.go:160-164). */
module PartNames {
  import opened Strings
  import opened Numerals

  const MIN_INT64 := -0x8000_0000_0000_0000
  const MAX_INT64 := 0x7fff_ffff_ffff_ffff

  predicate IsInt64(n: int) {
    MIN_INT64 <= n <= MAX_INT64
  }

  const PART_NAME_WIDTH := 5
  const MAX_PART_NUMBER := 10000

  function Zeros(n: int): string {
    if n <= 0 then "" else Zeros(n - 1) + "0"
  }

  /** fmt.Sprintf("%0*d", width, n). */
  function PadInt(n: int, width: nat): string {
    if n >= 0 then
      var s := Print(n, 10);
      Zeros(width - |s|) + s
    else
      var s := Print(-n, 10);
      "-" + Zeros(width - 1 - |s|) + s
  }

  function PartName(n: int): string {
    PadInt(n, PART_NAME_WIDTH)
  }

  /** strconv.ParseInt(name, 10, 64). */
  function ParsePartName(name: string): Option<int> {
    ParseInt(name, 10, 0x8000_0000_0000_0000)
  }

  lemma {:induction false} ZerosLength(n: int)
    ensures |Zeros(n)| == (if n <= 0 then 0 else n) && forall c :: c in Zeros(n) ==> c == '0'
  {
    if n > 0 {
      ZerosLength(n - 1);
    }
  }

  lemma MagnitudeLast(s: string, c: char)
    ensures Magnitude(s + [c], 10) == Magnitude(s, 10) * 10 + DigitValue(c)
  {
    assert (s + [c])[..|s|] == s;
  }

  lemma {:induction false} ZerosAreNothing(n: int)
    ensures Magnitude(Zeros(n), 10) == 0
  {
    hide Magnitude;
    if n > 0 {
      ZerosAreNothing(n - 1);
      MagnitudeLast(Zeros(n - 1), '0');
    } else {
      MagnitudeEmpty();
    }
  }

  lemma MagnitudeEmpty()
    ensures Magnitude("", 10) == 0
  {
  }

  lemma {:induction false} ZerosMagnitude(n: int, s: string)
    ensures Magnitude(Zeros(n) + s, 10) == Magnitude(s, 10)
    decreases |s|
  {
    hide Magnitude, DigitValue;
    if s != "" {
      var front, c := s[..|s| - 1], s[|s| - 1];
      assert s == front + [c] && Zeros(n) + s == (Zeros(n) + front) + [c];
      ZerosMagnitude(n, front);
      MagnitudeLast(front, c);
      MagnitudeLast(Zeros(n) + front, c);
    } else {
      assert Zeros(n) + s == Zeros(n);
      ZerosAreNothing(n);
      MagnitudeEmpty();
    }
  }

  lemma PaddedDigits(n: nat, zeros: int)
    ensures var s := Zeros(zeros) + Print(n, 10);
            s != "" && AllDigits(s, 10) && Magnitude(s, 10) == n && s[0] != '-' && s[0] != '+'
  {
    hide Print, Magnitude, Zeros;
    PrintedDigits(n, 10);
    ZerosLength(zeros);
    ZerosMagnitude(zeros, Print(n, 10));
    var s := Zeros(zeros) + Print(n, 10);
    forall c | c in s
      ensures DigitValue(c) < 10
    {
      assert c in Zeros(zeros) || c in Print(n, 10);
    }
    assert s[0] in s;
  }

  /** Printing a part number and parsing the name undo each other, for every number
      that the type can hold. */
  lemma PartNameRoundTrip(n: int)
    requires IsInt64(n)
    ensures ParsePartName(PartName(n)) == Some(n)
  {
    hide Print, Magnitude, AllDigits, Zeros;
    if n >= 0 {
      PaddedDigits(n, PART_NAME_WIDTH - |Print(n, 10)|);
    } else {
      var z := PART_NAME_WIDTH - 1 - |Print(-n, 10)|;
      PaddedDigits(-n, z);
      var s := Zeros(z) + Print(-n, 10);
      assert PartName(n) == "-" + s && ("-" + s)[1..] == s;
    }
  }

  lemma PartNamesDiffer(m: int, n: int)
    requires IsInt64(m) && IsInt64(n) && PartName(m) == PartName(n)
    ensures m == n
  {
    PartNameRoundTrip(m);
    PartNameRoundTrip(n);
  }

  // ---- numeric order is lexical order ----

  function Power10(w: nat): nat {
    if w == 0 then 1 else 10 * Power10(w - 1)
  }

  /** Exactly w digits. */
  function FixedDigits(n: nat, w: nat): (s: string)
    ensures |s| == w
  {
    if w == 0 then "" else FixedDigits(n / 10, w - 1) + [DIGITS[n % 10]]
  }

  lemma {:induction false} PrintFits(n: nat, w: nat)
    requires n < Power10(w) && w >= 1
    ensures |Print(n, 10)| <= w
    ensures Zeros(w - |Print(n, 10)|) + Print(n, 10) == FixedDigits(n, w)
  {
    if n >= 10 {
      PrintFits(n / 10, w - 1);
      var p, d := Print(n / 10, 10), [DIGITS[n % 10]];
      assert Zeros(w - |Print(n, 10)|) + (p + d) == (Zeros(w - 1 - |p|) + p) + d;
    } else {
      assert n / 10 == 0 && n % 10 == n;
      ZerosAre(w - 1);
    }
  }

  lemma {:induction false} ZerosAre(w: nat)
    ensures FixedDigits(0, w) == Zeros(w)
  {
    if w > 0 {
      ZerosAre(w - 1);
    }
  }

  lemma {:induction false} AppendDigitOrder(a: string, b: string, x: char, y: char)
    requires |a| == |b|
    ensures Less(a + [x], b + [y]) <==> Less(a, b) || (a == b && x < y)
  {
    if a != "" {
      assert (a + [x])[1..] == a[1..] + [x] && (b + [y])[1..] == b[1..] + [y];
      AppendDigitOrder(a[1..], b[1..], x, y);
      assert a == [a[0]] + a[1..] && b == [b[0]] + b[1..];
    }
  }

  lemma {:induction false} FixedDigitsOrder(m: nat, n: nat, w: nat)
    requires m < Power10(w) && n < Power10(w)
    ensures Less(FixedDigits(m, w), FixedDigits(n, w)) <==> m < n
    ensures FixedDigits(m, w) == FixedDigits(n, w) <==> m == n
  {
    hide Less;
    if w > 0 {
      FixedDigitsOrder(m / 10, n / 10, w - 1);
      var a, b := FixedDigits(m / 10, w - 1), FixedDigits(n / 10, w - 1);
      var x, y := DIGITS[m % 10], DIGITS[n % 10];
      AppendDigitOrder(a, b, x, y);
      DigitOrder(m % 10, n % 10);
      assert (a + [x])[..|a|] == a && (b + [y])[..|a|] == b;
      assert (a + [x])[|a|] == x && (b + [y])[|a|] == y;
    } else {
      LessIrreflexive("");
    }
  }

  lemma DigitOrder(d: nat, e: nat)
    requires d < 10 && e < 10
    ensures DIGITS[d] < DIGITS[e] <==> d < e
    ensures DIGITS[d] == DIGITS[e] <==> d == e
  {
  }

  /** The lexical order in which a bucket lists the part names is the order of the
      numbers. */
  lemma PartNameOrder(m: nat, n: nat)
    requires m <= MAX_PART_NUMBER && n <= MAX_PART_NUMBER
    ensures Less(PartName(m), PartName(n)) <==> m < n
  {
    hide Print, Less, FixedDigits;
    assert Power10(2) == 100 && Power10(5) == 100000;
    PrintFits(m, 5);
    PrintFits(n, 5);
    FixedDigitsOrder(m, n, 5);
  }

  lemma PartNameChars(n: int)
    ensures PartName(n) != "" && forall c :: c in PartName(n) ==> c in DIGITS || c == '-'
  {
    hide Print;
    var a := if n >= 0 then n else -n;
    PrintedDigits(a, 10);
    var z := if n >= 0 then PART_NAME_WIDTH - |Print(a, 10)| else PART_NAME_WIDTH - 1 - |Print(a, 10)|;
    ZerosLength(z);
    assert '0' == DIGITS[0] && DIGITS[0] in DIGITS;
  }
}
