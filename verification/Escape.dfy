/** HexEscape and HexUnescape (internal/escape/escape.go). */
module Escape {
  import opened Strings
  import opened Numerals

  const MAX_INT32 := 0x8000_0000
  const REPLACEMENT: char := '\U{FFFD}'

  /** What string([]rune) makes of one rune: an invalid rune becomes U+FFFD. */
  function RuneToChar(n: int): char {
    if 0 <= n < 0xD800 || 0xE000 <= n < 0x11_0000 then n as char else REPLACEMENT
  }

  /** The caller's rule: is position i of s to be escaped? */
  type Rule = (string, nat) -> bool

  /** fmt.Sprintf("__%#x__", c). */
  function EscapeRune(c: char): string {
    "__0x" + Print(c as int, 16) + "__"
  }

  datatype Parsed = Parsed(rune: char, length: nat)

  /** Where the first '_' of s is, or |s|. */
  function Underscore(s: string): (e: nat)
    ensures e <= |s| && '_' !in s[..e] && (e < |s| ==> s[e] == '_')
  {
    if s == "" || s[0] == '_' then 0 else
      var e := 1 + Underscore(s[1..]);
      assert s[..e] == [s[0]] + s[1..][..e - 1];
      e
  }

  /** The escape sequence that starts t, if there is one, and its length. */
  function ParseEscape(t: string): (r: Option<Parsed>)
    ensures r.Some? ==> 6 <= r.value.length <= |t|
  {
    if !HasPrefix(t, "__0x") then None
    else
      var e := 4 + Underscore(t[4..]);
      if e + 1 >= |t| || t[e + 1] != '_' then None
      else
        match ParseInt(t[4..e], 16, MAX_INT32)
        case None => None
        case Some(v) => Some(Parsed(RuneToChar(v), e + 2))
  }

  predicate Escaped(s: string, rule: Rule, i: nat)
    requires i < |s|
  {
    rule(s, i) || ParseEscape(s[i..]).Some?
  }

  /** The escaped form of s from position i on. */
  function EscapeFrom(s: string, rule: Rule, i: nat): string
    requires i <= |s|
    decreases |s| - i
  {
    if i == |s| then ""
    else EscapePiece(s, rule, i) + EscapeFrom(s, rule, i + 1)
  }

  /** What becomes of the rune at i. */
  function EscapePiece(s: string, rule: Rule, i: nat): string
    requires i < |s|
  {
    if Escaped(s, rule, i) then EscapeRune(s[i]) else [s[i]]
  }

  function Escape(s: string, rule: Rule): string {
    EscapeFrom(s, rule, 0)
  }

  function Unescape(t: string): string
    decreases |t|
  {
    if t == "" then ""
    else
      match ParseEscape(t)
      case Some(p) => [p.rune] + Unescape(t[p.length..])
      case None => [t[0]] + Unescape(t[1..])
  }

  lemma {:induction false} UnderscoreAfter(h: string, t: string)
    requires '_' !in h && t != "" && t[0] == '_'
    ensures Underscore(h + t) == |h|
  {
    if h == "" {
      assert h + t == t;
    } else {
      assert (h + t)[1..] == h[1..] + t;
      UnderscoreAfter(h[1..], t);
      assert h[0] in h;
    }
  }

  // ---- what an escape sequence looks like ----

  /** A text that starts with "__0x", an accepted number and "__" parses... */
  lemma ParseEscapeIntro(h: string, rest: string)
    requires ParseInt(h, 16, MAX_INT32).Some?
    ensures ParseEscape("__0x" + h + "__" + rest)
         == Some(Parsed(RuneToChar(ParseInt(h, 16, MAX_INT32).value), |h| + 6))
  {
    ParsedText(h, 16, MAX_INT32);
    var t := "__0x" + h + "__" + rest;
    UnderscoreAfter(h, "__" + rest);
    assert t[4..] == h + ("__" + rest);
    assert t[..4] == "__0x" && t[4 + |h|] == '_' && t[5 + |h|] == '_';
    assert t[4..4 + |h|] == h;
  }

  /** ...and nothing else does. */
  lemma ParseEscapeElim(t: string) returns (h: string, rest: string)
    requires ParseEscape(t).Some?
    ensures t == "__0x" + h + "__" + rest && '_' !in h && '/' !in h
    ensures ParseInt(h, 16, MAX_INT32).Some?
    ensures ParseEscape(t).value == Parsed(RuneToChar(ParseInt(h, 16, MAX_INT32).value), |h| + 6)
  {
    hide ParseInt;
    var u := Underscore(t[4..]);
    var e := 4 + u;
    h, rest := t[4..e], t[e + 2..];
    ParsedText(h, 16, MAX_INT32);
    assert u < |t[4..]| && t[4..][u] == '_';
    assert t == t[..4] + h + [t[e]] + [t[e + 1]] + rest;
    assert [t[e]] + [t[e + 1]] == "__";
  }

  lemma ParsedSpan(t: string)
    requires ParseEscape(t).Some?
    ensures var n := ParseEscape(t).value.length;
            t[..4] == "__0x" && t[n - 1] == '_' && forall j :: 0 <= j < n ==> t[j] != '/'
  {
    hide ParseEscape, ParseInt;
    var h, rest := ParseEscapeElim(t);
    var e := "__0x" + h + "__" + rest;
    assert e[0] == '_' && e[1] == '_' && e[2] == '0' && e[3] == 'x';
    assert forall j :: 4 <= j < 4 + |h| ==> e[j] == h[j - 4] && h[j - 4] in h;
    assert e[4 + |h|] == '_' && e[5 + |h|] == '_';
  }

  /** Whether a text parses depends only on the part that is read. */
  lemma ParseEscapePrefix(t: string, x: string)
    requires ParseEscape(t).Some?
    ensures ParseEscape(t + x) == ParseEscape(t)
  {
    var h, rest := ParseEscapeElim(t);
    ParseEscapeIntro(h, rest);
    ParseEscapeIntro(h, rest + x);
    assert t + x == "__0x" + h + "__" + (rest + x);
  }

  lemma ParseEscapeCut(t: string, x: string)
    requires ParseEscape(t + x).Some? && ParseEscape(t + x).value.length <= |t|
    ensures ParseEscape(t) == ParseEscape(t + x)
  {
    var h, rest := ParseEscapeElim(t + x);
    var n := |h| + 6;
    assert t == (t + x)[..|t|];
    assert t == "__0x" + h + "__" + t[n..];
    ParseEscapeIntro(h, t[n..]);
  }

  lemma ParseEscapedRune(c: char, rest: string)
    ensures ParseEscape(EscapeRune(c) + rest) == Some(Parsed(c, |EscapeRune(c)|))
  {
    var h := Print(c as int, 16);
    ParsePrinted(c as int, 16, MAX_INT32);
    ParseEscapeIntro(h, rest);
    assert EscapeRune(c) + rest == "__0x" + h + "__" + rest;
  }

  /** The text begins with "__0x", a numeral of base 16 that fits 32 bits, perhaps with a
      sign, and "__"; it stands for the rune of that number. */
  predicate BeginsSequence(t: string, h: string, v: int, d: string) {
    WritesWith(h, 16, v, d) && -0x8000_0000 <= v < 0x8000_0000 && "__0x" + h + "__" <= t
  }

  /** And the decoder reads just these. */
  lemma ParseEscapeIff(t: string)
    ensures ParseEscape(t).Some? <==> exists h, v, d :: BeginsSequence(t, h, v, d)
  {
    hide ParseEscape, ParseInt, WritesWith;
    if ParseEscape(t).Some? {
      var h, rest := ParseEscapeElim(t);
      var v := ParseInt(h, 16, MAX_INT32).value;
      ParseIntIff(h, 16, MAX_INT32, v);
      var d :| WritesWith(h, 16, v, d);
      assert "__0x" + h + "__" <= t;
      assert BeginsSequence(t, h, v, d);
    }
    forall h, v, d | BeginsSequence(t, h, v, d)
      ensures ParseEscape(t).Some?
    {
      SequenceParses(t, h, v, d);
    }
  }

  lemma SequenceParses(t: string, h: string, v: int, d: string)
    requires BeginsSequence(t, h, v, d)
    ensures ParseEscape(t)
         == Some(Parsed(if (0 <= v < 0xD800) || (0xE000 <= v < 0x11_0000) then v as char else '\U{FFFD}', |h| + 6))
  {
    hide ParseEscape, ParseInt, WritesWith;
    ParseIntIff(h, 16, MAX_INT32, v);
    var e := "__0x" + h + "__";
    ParseEscapeIntro(h, t[|e|..]);
    assert t == e + t[|e|..];
  }

  /** An escape sequence has the rune's number in small hexadecimal digits. */
  lemma EscapeRuneIs(c: char)
    ensures exists h: string ::
              && EscapeRune(c) == "__0x" + h + "__"
              && IsNumeral(h, 16) && Sum(h, 16) == c as int && (h[0] == '0' ==> h == "0")
              && forall x :: x in h ==> x in "0123456789abcdef"
  {
    hide Print, Sum;
    PrintIs(c as int, 16);
  }

  // ---- when the escaped text reads back ----

  /** The first escaped position from i on, or |s|. */
  function NextEscaped(s: string, rule: Rule, i: nat): (k: nat)
    requires i <= |s|
    ensures i <= k <= |s|
    ensures forall j :: i <= j < k ==> !Escaped(s, rule, j)
    ensures k < |s| ==> Escaped(s, rule, k)
    decreases |s| - i
  {
    if i == |s| || Escaped(s, rule, i) then i else NextEscaped(s, rule, i + 1)
  }

  predicate Accepted(h: string) {
    ParseInt(h, 16, MAX_INT32).Some?
  }

  /** Plain text x splices with an escape sequence behind it: it is "__0x" and an
      accepted number, perhaps with one underscore of its own, and the underscores
      that would close it are those of the sequence. */
  predicate Splices(x: string) {
    HasPrefix(x, "__0x") && (Accepted(x[4..]) || (HasSuffix(x[4..], "_") && Accepted(x[4..|x| - 1])))
  }

  /** The number that the decoder reads at a splice... */
  function SplicedNumber(x: string): string
    requires Splices(x)
  {
    if Accepted(x[4..]) then x[4..] else x[4..|x| - 1]
  }

  /** ...and the underscore of the text's own behind it. */
  function SplicedOwn(x: string): string
    requires Splices(x)
  {
    if Accepted(x[4..]) then "" else "_"
  }

  /** The plain text from i up to the next escaped rune. */
  function PlainFrom(s: string, rule: Rule, i: nat): string
    requires i <= |s|
  {
    s[i..NextEscaped(s, rule, i)]
  }

  predicate SpliceAt(s: string, rule: Rule, i: nat)
    requires i < |s|
  {
    NextEscaped(s, rule, i) < |s| && Splices(PlainFrom(s, rule, i))
  }

  predicate NoSplice(s: string, rule: Rule) {
    forall i :: 0 <= i < |s| ==> !SpliceAt(s, rule, i)
  }

  lemma HeadAppend(c: char, a: string, b: string)
    ensures [c] + (a + b) == ([c] + a) + b
    ensures ([c] + a)[1..] == a
  {
  }

  lemma {:induction false} EscapeFromPlain(s: string, rule: Rule, i: nat, k: nat)
    requires i <= k <= |s| && forall j :: i <= j < k ==> !Escaped(s, rule, j)
    ensures EscapeFrom(s, rule, i) == s[i..k] + EscapeFrom(s, rule, k)
    decreases k - i
  {
    var tail := EscapeFrom(s, rule, k);
    if i < k {
      EscapeFromPlain(s, rule, i + 1, k);
      assert !Escaped(s, rule, i);
      HeadAppend(s[i], s[i + 1..k], tail);
      assert s[i..k] == [s[i]] + s[i + 1..k];
    } else {
      assert s[i..k] == "" && "" + tail == tail;
    }
  }

  /** Two readings of one text: x and then an escape sequence, or an escape
      sequence of the number h that ends behind x.  Then x is the start of the
      latter, and the closing underscores are those of the former. */
  lemma TwoReadings(x: string, y: string, h: string, rest: string)
    requires x + ("__0x" + y) == "__0x" + h + "__" + rest
    requires '_' !in h && 0 < |x| < |h| + 6
    ensures |x| >= 4 && x[..4] == "__0x"
    ensures x[4..] == h || x[4..] == h + "_"
  {
    var e := x + ("__0x" + y);
    var l := |x|;
    assert e[l] == '_' && e[l + 1] == '_' && e[l + 2] == '0' && e[l + 3] == 'x';
    var f := "__0x" + h + "__" + rest;
    assert f[0] == '_' && f[1] == '_' && f[2] == '0' && f[3] == 'x';
    assert f[4 + |h|] == '_' && f[5 + |h|] == '_';
    assert l >= 4;
    assert x == f[..l];
    assert f[4..4 + |h|] == h;
    assert forall j :: 4 <= j < 4 + |h| ==> f[j] == h[j - 4] && h[j - 4] in h;
  }

  lemma SplicesIntro(x: string, h: string)
    requires |x| >= 4 && x[..4] == "__0x" && Accepted(h) && (x[4..] == h || x[4..] == h + "_")
    ensures Splices(x)
  {
    hide Accepted;
    if x[4..] == h + "_" {
      assert x[4..|x| - 1] == x[4..][..|h|] == h;
    }
  }

  /** Text that is no escape sequence itself reads as one with an escape sequence
      behind it only if it splices. */
  lemma FalseStart(x: string, y: string)
    requires x != "" && ParseEscape(x).None?
    requires ParseEscape(x + ("__0x" + y)).Some?
    ensures Splices(x)
  {
    hide ParseEscape, ParseInt;
    var h, rest := ParseEscapeElim(x + ("__0x" + y));
    if |h| + 6 <= |x| {
      ParseEscapeCut(x, "__0x" + y);
    } else {
      TwoReadings(x, y, h, rest);
      SplicesIntro(x, h);
    }
  }

  lemma SplicesElim(x: string)
    requires Splices(x)
    ensures x == "__0x" + SplicedNumber(x) + SplicedOwn(x) && Accepted(SplicedNumber(x))
    ensures SplicedOwn(x) == "" || SplicedOwn(x) == "_"
  {
    hide Accepted;
    assert x[..4] == "__0x" && x == x[..4] + x[4..];
    if !Accepted(x[4..]) {
      assert x[4..] == x[4..|x| - 1] + x[4..][|x| - 5..];
    }
  }

  /** What the decoder does at a splice: it reads the number, and what is left of
      the escape sequence it ran into stays behind as text. */
  lemma SpliceParses(x: string, y: string)
    requires Splices(x)
    ensures x + ("__0x" + y) == "__0x" + SplicedNumber(x) + "__" + (SplicedOwn(x) + "0x" + y)
    ensures ParseEscape(x + ("__0x" + y))
         == Some(Parsed(RuneToChar(ParseInt(SplicedNumber(x), 16, MAX_INT32).value), |SplicedNumber(x)| + 6))
  {
    hide ParseEscape, ParseInt, Splices, SplicedNumber, SplicedOwn;
    var h, own := SplicedNumber(x), SplicedOwn(x);
    SplicesElim(x);
    ParseEscapeIntro(h, own + "0x" + y);
    assert own + "__" == "__" + own;
    calc {
      x + ("__0x" + y);
      "__0x" + h + (own + "__") + ("0x" + y);
      "__0x" + h + ("__" + own) + ("0x" + y);
      "__0x" + h + "__" + (own + "0x" + y);
    }
  }

  /** The text behind the "__0x" of the escape sequence of position k. */
  function EscapeRest(s: string, rule: Rule, k: nat): string
    requires k < |s|
  {
    Print(s[k] as int, 16) + "__" + EscapeFrom(s, rule, k + 1)
  }

  lemma EscapeFromNext(s: string, rule: Rule, i: nat)
    requires i < |s|
    ensures var k := NextEscaped(s, rule, i);
            EscapeFrom(s, rule, i) == PlainFrom(s, rule, i)
              + (if k < |s| then "__0x" + EscapeRest(s, rule, k) else "")
  {
    hide Escaped, Print, EscapeFrom;
    var k := NextEscaped(s, rule, i);
    EscapeFromPlain(s, rule, i, k);
    if k < |s| {
      EscapeFromEscaped(s, rule, k);
    } else {
      EscapeFromEnd(s, rule);
    }
  }

  lemma EscapeFromEnd(s: string, rule: Rule)
    ensures EscapeFrom(s, rule, |s|) == ""
  {
  }

  lemma EscapeFromEscaped(s: string, rule: Rule, k: nat)
    requires k < |s| && Escaped(s, rule, k)
    ensures EscapeFrom(s, rule, k) == "__0x" + EscapeRest(s, rule, k)
  {
    hide Escaped, Print;
    var p, tail := Print(s[k] as int, 16), EscapeFrom(s, rule, k + 1);
    assert EscapeFrom(s, rule, k) == ("__0x" + p + "__") + tail;
    assert ("__0x" + p + "__") + tail == "__0x" + (p + "__" + tail);
  }

  lemma PlainIsNoEscape(s: string, rule: Rule, i: nat)
    requires i < |s| && !Escaped(s, rule, i)
    ensures NextEscaped(s, rule, i) > i && ParseEscape(PlainFrom(s, rule, i)).None?
  {
    var x := PlainFrom(s, rule, i);
    assert x + s[i + |x|..] == s[i..];
    if ParseEscape(x).Some? {
      ParseEscapePrefix(x, s[i + |x|..]);
    }
  }

  /** The decoder reads one piece of the escaped text exactly when there is no
      splice at it: an escape sequence gives its rune back, and other text is
      not taken for an escape sequence. */
  lemma DecodesPieceIffNoSplice(s: string, rule: Rule, i: nat)
    requires i < |s|
    ensures ParseEscape(EscapeFrom(s, rule, i))
         == (if Escaped(s, rule, i) then Some(Parsed(s[i], |EscapeRune(s[i])|)) else None)
       <==> !SpliceAt(s, rule, i)
  {
    hide ParseEscape, Splices, Print, EscapeRune;
    var x, k := PlainFrom(s, rule, i), NextEscaped(s, rule, i);
    if Escaped(s, rule, i) {
      ParseEscapedRune(s[i], EscapeFrom(s, rule, i + 1));
      assert EscapeFrom(s, rule, i) == EscapeRune(s[i]) + EscapeFrom(s, rule, i + 1);
      assert k == i && x == "";
      NoSpliceInEmpty();
    } else {
      EscapeFromNext(s, rule, i);
      PlainIsNoEscape(s, rule, i);
      if k == |s| {
        assert x + "" == x;
      } else if Splices(x) {
        SpliceParses(x, EscapeRest(s, rule, k));
      } else if ParseEscape(EscapeFrom(s, rule, i)).Some? {
        FalseStart(x, EscapeRest(s, rule, k));
      }
    }
  }

  lemma NoSpliceInEmpty()
    ensures !Splices("")
  {
  }

  /** Up to the first splice the decoder gives back the text. */
  lemma {:induction false} DecodesUpTo(s: string, rule: Rule, i: nat, j: nat)
    requires i <= j <= |s| && forall m :: i <= m < j ==> !SpliceAt(s, rule, m)
    ensures Unescape(EscapeFrom(s, rule, i)) == s[i..j] + Unescape(EscapeFrom(s, rule, j))
    decreases j - i
  {
    hide Unescape, EscapeFrom, SpliceAt;
    if i < j {
      DecodesPiece(s, rule, i);
      DecodesUpTo(s, rule, i + 1, j);
      HeadAppend(s[i], s[i + 1..j], Unescape(EscapeFrom(s, rule, j)));
      assert s[i..j] == [s[i]] + s[i + 1..j];
    } else {
      assert s[i..j] == "" && "" + Unescape(EscapeFrom(s, rule, j)) == Unescape(EscapeFrom(s, rule, j));
    }
  }

  lemma DecodesPiece(s: string, rule: Rule, i: nat)
    requires i < |s| && !SpliceAt(s, rule, i)
    ensures Unescape(EscapeFrom(s, rule, i)) == [s[i]] + Unescape(EscapeFrom(s, rule, i + 1))
  {
    DecodesPieceIffNoSplice(s, rule, i);
    var e, tail := EscapeFrom(s, rule, i), EscapeFrom(s, rule, i + 1);
    var piece := EscapePiece(s, rule, i);
    assert e == piece + tail;
    assert e[|piece|..] == tail;
    assert e[0] == piece[0];
  }

  /** HexUnescape reverses HexEscape on every text without a splice, whatever the
      rule is. */
  lemma RoundTrip(s: string, rule: Rule)
    requires NoSplice(s, rule)
    ensures Unescape(Escape(s, rule)) == s
  {
    DecodesUpTo(s, rule, 0, |s|);
    assert s[0..|s|] == s;
  }

  /** Hence two texts without splices never share an escaped form. */
  lemma EscapeInjective(s: string, t: string, rule: Rule)
    requires NoSplice(s, rule) && NoSplice(t, rule) && Escape(s, rule) == Escape(t, rule)
    ensures s == t
  {
    RoundTrip(s, rule);
    RoundTrip(t, rule);
  }

  lemma {:induction false} UnescapePlain(p: string, t: string)
    requires '_' !in p
    ensures Unescape(p + t) == p + Unescape(t)
  {
    if p == "" {
      assert p + t == t && p + Unescape(t) == Unescape(t);
    } else {
      assert p[0] in p && p[0] != '_' && (p + t)[0] == p[0];
      HeadAppend(p[0], p[1..], t);
      assert p == [p[0]] + p[1..];
      assert ParseEscape(p + t).None?;
      UnescapePlain(p[1..], t);
      HeadAppend(p[0], p[1..], Unescape(t));
    }
  }

  // ---- and when it does not ----

  lemma UnescapeAfterEscape(h: string, t: string)
    requires Accepted(h)
    ensures Unescape("__0x" + h + "__" + t) == [RuneToChar(ParseInt(h, 16, MAX_INT32).value)] + Unescape(t)
  {
    ParseEscapeIntro(h, t);
    assert ("__0x" + h + "__" + t)[|h| + 6..] == t;
  }

  /** The rest of an escape sequence whose first underscores are gone is plain. */
  lemma UnescapeNumber(n: nat, rest: string)
    ensures Unescape("0x" + Print(n, 16) + rest) == "0x" + Print(n, 16) + Unescape(rest)
    ensures Unescape("_" + ("0x" + Print(n, 16) + rest)) == "_" + Unescape("0x" + Print(n, 16) + rest)
  {
    hide Print, ParseInt, Unescape;
    PrintedDigits(n, 16);
    UnescapePlain("0x" + Print(n, 16), rest);
    var t := "0x" + Print(n, 16) + rest;
    LoneUnderscore(t);
  }

  lemma LoneUnderscore(t: string)
    requires t != "" && t[0] == '0'
    ensures Unescape("_" + t) == "_" + Unescape(t)
  {
    assert ("_" + t)[1] == '0' && ("_" + t)[1..] == t;
  }

  /** Closing underscores of an escape sequence of which the decoder has read the rest. */
  function Pending(u: nat): string {
    if u == 0 then "" else if u == 1 then "_" else "__"
  }

  /** What the decoder makes of a splice: the rune that it reads there, and what is left
      of the escape sequence, up to its closing underscores. */
  function Block(d: char, own: string, p: string): (b: string)
    ensures |b| == 3 + |own| + |p|
  {
    [d] + (own + ("0x" + p))
  }

  lemma SplicedReading(y: string, c: char, tail: string) returns (d: char, p: string)
    requires Splices(y)
    ensures p == Print(c as int, 16) && '_' !in p && 'x' !in p && p != ""
    ensures d == RuneToChar(ParseInt(SplicedNumber(y), 16, MAX_INT32).value)
    ensures Unescape(y + ("__0x" + (p + "__" + tail))) == Block(d, SplicedOwn(y), p) + Unescape("__" + tail)
  {
    hide ParseEscape, Print, ParseInt, Unescape, Splices, SplicedNumber, SplicedOwn, Block;
    p := Print(c as int, 16);
    PrintedDigits(c as int, 16);
    var h, own, rest := SplicedNumber(y), SplicedOwn(y), "__" + tail;
    SplicesElim(y);
    d := RuneToChar(ParseInt(h, 16, MAX_INT32).value);
    Regroup(own, p, tail);
    SpliceParses(y, p + rest);
    UnescapeAfterEscape(h, own + ("0x" + p + rest));
    UnescapeOwn(own, c as int, rest);
    BlockThen(d, own, p, Unescape(rest));
  }

  lemma Regroup(own: string, p: string, tail: string)
    ensures p + "__" + tail == p + ("__" + tail)
    ensures own + "0x" + (p + ("__" + tail)) == own + ("0x" + p + ("__" + tail))
  {
  }

  lemma UnescapeOwn(own: string, n: nat, rest: string)
    requires own == "" || own == "_"
    ensures Unescape(own + ("0x" + Print(n, 16) + rest)) == own + ("0x" + Print(n, 16) + Unescape(rest))
  {
    hide Print, Unescape;
    var p := Print(n, 16);
    UnescapeNumber(n, rest);
    assert "" + ("0x" + p + rest) == "0x" + p + rest;
  }

  lemma BlockThen(d: char, own: string, p: string, u: string)
    ensures [d] + (own + ("0x" + p + u)) == Block(d, own, p) + u
  {
  }

  /** Text t that begins with such a block, and goes on some way behind its beginning with
      what the block was read from: the block ends there, or one place behind. */
  lemma BlockIsBehind(t: string, lag: nat, u: nat, h: string, own: string, d: char, p: string)
    requires u <= 2 && u < lag <= |t| && (own == "" || own == "_") && h != "" && p != "" && '_' !in p && 'x' !in p
    requires Block(d, own, p) <= t && ("__0x" + h + own)[u..] <= t[lag..]
    ensures |Block(d, own, p)| <= lag + if u == 2 then 1 else 0
  {
    var b, y := Block(d, own, p), "__0x" + h + own;
    assert y[0] == '_' && y[1] == '_' && y[2] == '0' && y[3] == 'x' && y[u..][0] == y[u] && y[u..][1] == y[u + 1];
    var f := t[lag..];
    assert f[0] == y[u] && f[1] == y[u + 1] && f[0] == t[lag] && f[1] == t[lag + 1];
    assert forall j :: 0 <= j < |b| ==> b[j] == t[j];
    assert b[|own| + 1] == '0' && b[|own| + 2] == 'x' && (own == "_" ==> b[1] == '_');
    assert forall j :: 3 + |own| <= j < |b| ==> b[j] == p[j - 3 - |own|] && b[j] in p;
  }

  /** The decoder stands in the escaped text at position i, with u underscores pending;
      what it gives from there on is to be the text from position o on. */
  predicate Gives(s: string, rule: Rule, i: nat, o: nat, u: nat) {
    i <= |s| && o <= |s| && u <= 2 && Unescape(Pending(u) + EscapeFrom(s, rule, i)) == s[o..]
  }

  /** The decoder is behind: more so than by the pending underscores. */
  predicate IsBehind(i: nat, o: nat, u: nat) {
    o + u < i
  }

  /** A rune that is read as it was written. */
  lemma RuneStep(s: string, rule: Rule, i: nat, o: nat)
    requires i < |s| && Gives(s, rule, i, o, 0) && !SpliceAt(s, rule, i)
    ensures Gives(s, rule, i + 1, o + 1, 0)
  {
    hide Unescape, EscapeFrom, SpliceAt;
    DecodesPiece(s, rule, i);
    var e, rest := EscapeFrom(s, rule, i), EscapeFrom(s, rule, i + 1);
    assert "" + e == e && "" + rest == rest;
    assert Unescape(rest) == s[o..][1..] == s[o + 1..];
  }

  /** A pending underscore that begins nothing. */
  lemma UnderscoreStep(s: string, rule: Rule, i: nat, o: nat, u: nat)
    requires Gives(s, rule, i, o, u) && u > 0 && ParseEscape(Pending(u) + EscapeFrom(s, rule, i)).None?
    ensures Gives(s, rule, i, o + 1, u - 1)
  {
    hide ParseEscape, EscapeFrom;
    var t := Pending(u) + EscapeFrom(s, rule, i);
    assert t[1..] == Pending(u - 1) + EscapeFrom(s, rule, i);
    assert s[o..][1..] == s[o + 1..];
  }

  /** Pending underscores and plain text that are an escape sequence together. */
  lemma WholeStep(s: string, rule: Rule, i: nat, o: nat, u: nat) returns (j: nat)
    requires i <= |s| && Gives(s, rule, i, o, u) && u > 0 && ParseEscape(Pending(u) + PlainFrom(s, rule, i)).Some?
    ensures i + 4 <= j && Gives(s, rule, j, o + 1, 0)
  {
    hide ParseEscape, EscapeFrom, Escaped;
    var k := NextEscaped(s, rule, i);
    var y, e := Pending(u) + PlainFrom(s, rule, i), EscapeFrom(s, rule, k);
    EscapeFromPlain(s, rule, i, k);
    assert Pending(u) + EscapeFrom(s, rule, i) == y + e;
    ParseEscapePrefix(y, e);
    var p := ParseEscape(y).value;
    j := i + p.length - u;
    EscapeFromPlain(s, rule, j, k);
    assert (y + e)[p.length..] == y[p.length..] + e;
    assert y[p.length..] == s[j..k];
    assert "" + EscapeFrom(s, rule, j) == EscapeFrom(s, rule, j);
    assert s[o..][1..] == s[o + 1..];
  }

  /** A splice, of pending underscores and plain text with the escape sequence behind. */
  lemma SpliceStep(s: string, rule: Rule, i: nat, o: nat, u: nat) returns (q: nat)
    requires Gives(s, rule, i, o, u) && IsBehind(i, o, u)
    requires NextEscaped(s, rule, i) < |s| && Splices(Pending(u) + PlainFrom(s, rule, i))
    ensures var k := NextEscaped(s, rule, i); Gives(s, rule, k + 1, q, 2) && IsBehind(k + 1, q, 2)
  {
    hide ParseEscape, ParseInt, EscapeFrom, Escaped, Unescape, Splices, SplicedNumber, SplicedOwn, Block;
    var d: char, p: string;
    d, p, q := SpliceGives(s, rule, i, o, u);
    var k, y := NextEscaped(s, rule, i), Pending(u) + PlainFrom(s, rule, i);
    SplicesElim(y);
    NumberIsSome(SplicedNumber(y));
    assert y[u..] == PlainFrom(s, rule, i) == s[i..k];
    assert s[o..][i - o..] == s[i..];
    BlockIsBehind(s[o..], i - o, u, SplicedNumber(y), SplicedOwn(y), d, p);
  }

  lemma NumberIsSome(h: string)
    requires Accepted(h)
    ensures h != ""
  {
  }

  lemma SpliceGives(s: string, rule: Rule, i: nat, o: nat, u: nat) returns (d: char, p: string, q: nat)
    requires Gives(s, rule, i, o, u)
    requires NextEscaped(s, rule, i) < |s| && Splices(Pending(u) + PlainFrom(s, rule, i))
    ensures var k, y := NextEscaped(s, rule, i), Pending(u) + PlainFrom(s, rule, i);
            && p == Print(s[k] as int, 16) && '_' !in p && 'x' !in p && p != ""
            && d == RuneToChar(ParseInt(SplicedNumber(y), 16, MAX_INT32).value)
            && Block(d, SplicedOwn(y), p) <= s[o..]
            && q == o + |Block(d, SplicedOwn(y), p)| && Gives(s, rule, k + 1, q, 2)
  {
    hide ParseEscape, ParseInt, EscapeFrom, Escaped, Unescape, Splices, SplicedNumber, SplicedOwn, Block, Print;
    var k, x := NextEscaped(s, rule, i), PlainFrom(s, rule, i);
    var y, tail := Pending(u) + x, EscapeFrom(s, rule, k + 1);
    d, p := SplicedReading(y, s[k], tail);
    EscapeFromNext(s, rule, i);
    assert Pending(u) + EscapeFrom(s, rule, i) == y + ("__0x" + (p + "__" + tail));
    q := o + |Block(d, SplicedOwn(y), p)|;
    assert s[o..][q - o..] == s[q..];
  }

  /** A decoder that has fallen behind stays behind, and never gives the rest of the text. */
  lemma {:induction false} NeverCatchesUp(s: string, rule: Rule, i: nat, o: nat, u: nat)
    requires IsBehind(i, o, u)
    ensures !Gives(s, rule, i, o, u)
    decreases |s| - i, u
  {
    hide Gives, ParseEscape, Splices, Escaped, EscapeFrom;
    if Gives(s, rule, i, o, u) {
      GivesInside(s, rule, i, o, u);
      var k, y := NextEscaped(s, rule, i), Pending(u) + PlainFrom(s, rule, i);
      assert "" + PlainFrom(s, rule, i) == PlainFrom(s, rule, i);
      if i == |s| {
        AtTheEnd(s, rule, o, u);
      } else if u == 0 && !SpliceAt(s, rule, i) {
        RuneStep(s, rule, i, o);
        NeverCatchesUp(s, rule, i + 1, o + 1, 0);
      } else if u > 0 && ParseEscape(y).Some? {
        var j := WholeStep(s, rule, i, o, u);
        NeverCatchesUp(s, rule, j, o + 1, 0);
      } else if k < |s| && Splices(y) {
        var q := SpliceStep(s, rule, i, o, u);
        NeverCatchesUp(s, rule, k + 1, q, 2);
      } else {
        NothingBegins(s, rule, i, u);
        UnderscoreStep(s, rule, i, o, u);
        NeverCatchesUp(s, rule, i, o + 1, u - 1);
      }
    }
  }

  lemma GivesInside(s: string, rule: Rule, i: nat, o: nat, u: nat)
    requires Gives(s, rule, i, o, u)
    ensures i <= |s| && o <= |s| && u <= 2
  {
  }

  lemma AtTheEnd(s: string, rule: Rule, o: nat, u: nat)
    requires IsBehind(|s|, o, u) && u <= 2
    ensures !Gives(s, rule, |s|, o, u)
  {
    EscapeFromEnd(s, rule);
    assert Pending(u) + "" == Pending(u);
    ShortText(Pending(u));
  }

  lemma ShortText(t: string)
    requires |t| <= 2
    ensures |Unescape(t)| == |t|
  {
    if t != "" {
      ShortText(t[1..]);
    }
  }

  lemma NothingBegins(s: string, rule: Rule, i: nat, u: nat)
    requires i < |s| && 0 < u <= 2
    requires var y := Pending(u) + PlainFrom(s, rule, i);
             ParseEscape(y).None? && (NextEscaped(s, rule, i) < |s| ==> !Splices(y))
    ensures ParseEscape(Pending(u) + EscapeFrom(s, rule, i)).None?
  {
    hide ParseEscape, Splices, EscapeFrom, Escaped, Print;
    var k, x := NextEscaped(s, rule, i), PlainFrom(s, rule, i);
    var y, e := Pending(u) + x, EscapeFrom(s, rule, i);
    EscapeFromNext(s, rule, i);
    if k == |s| {
      assert x + "" == x;
    } else {
      assert Pending(u) + e == y + ("__0x" + EscapeRest(s, rule, k));
      if ParseEscape(Pending(u) + e).Some? {
        FalseStart(y, EscapeRest(s, rule, k));
      }
    }
  }

  /** At the first splice the decoder falls behind, if what it gives is to begin as the
      text does. */
  lemma FallsBehind(s: string, rule: Rule, i: nat) returns (q: nat)
    requires i < |s| && SpliceAt(s, rule, i) && Gives(s, rule, i, i, 0)
    ensures var k := NextEscaped(s, rule, i); Gives(s, rule, k + 1, q, 2) && IsBehind(k + 1, q, 2)
  {
    hide ParseEscape, ParseInt, EscapeFrom, Escaped, Unescape, Splices, SplicedNumber, SplicedOwn, Block, Print;
    NextOfSplice(s, rule, i);
    var k, x := NextEscaped(s, rule, i), PlainFrom(s, rule, i);
    assert "" + x == x;
    var d, p;
    d, p, q := SpliceGives(s, rule, i, i, 0);
    SplicesElim(x);
    NoSpliceInEmpty();
    assert k == i ==> x == "";
    NotEscapedMeansNoParse(s, rule, i);
    assert s[i..] == x + ([s[k]] + s[k + 1..]);
    BlockAtFirst(SplicedNumber(x), SplicedOwn(x), s[k], s[k + 1..], d, p);
  }

  lemma NotEscapedMeansNoParse(s: string, rule: Rule, i: nat)
    requires i < |s| && !Escaped(s, rule, i)
    ensures ParseEscape(s[i..]).None?
  {
  }

  lemma BlockAtFirst(h: string, own: string, c: char, after: string, d: char, p: string)
    requires Accepted(h) && (own == "" || own == "_") && d == RuneToChar(ParseInt(h, 16, MAX_INT32).value)
    requires p == Print(c as int, 16) && '_' !in p
    requires ParseEscape("__0x" + h + own + ([c] + after)).None?
    requires Block(d, own, p) <= "__0x" + h + own + ([c] + after)
    ensures own == "_" && |p| < |h|
  {
    hide ParseEscape, Print, ParseInt;
    var b, t := Block(d, own, p), "__0x" + h + own + ([c] + after);
    assert t[0] == '_' && t[1] == '_' && b[1] == t[1] && b[0] == t[0];
    assert own == "_";
    assert t[4..] == h + (own + ([c] + after));
    assert b[4..] == p && p <= t[4..];
    WithinNumber(p, h, [c] + after);
    assert d == '_' && (|p| == |h| ==> p == h[..|h|] == h);
    ParsePrinted(c as int, 16, MAX_INT32);
    ParseEscapeIntro(h, after);
    assert c == '_' ==> t == "__0x" + h + "__" + after;
  }

  lemma WithinNumber(p: string, h: string, t: string)
    requires p <= h + ("_" + t) && '_' !in p
    ensures p <= h
  {
    var f := h + ("_" + t);
    assert f[|h|] == '_';
    assert forall j :: 0 <= j < |p| ==> f[j] == p[j] && p[j] in p;
  }

  /** The exact condition, for every text and rule: it reads back if and only if it has
      no splice. */
  lemma RoundTripIff(s: string, rule: Rule)
    ensures Unescape(Escape(s, rule)) == s <==> NoSplice(s, rule)
  {
    hide SpliceAt, Escaped, EscapeFrom, Unescape;
    if NoSplice(s, rule) {
      RoundTrip(s, rule);
    } else if Unescape(Escape(s, rule)) == s {
      var i := FirstSplice(s, rule);
      DecodesUpTo(s, rule, 0, i);
      assert s == s[0..i] + s[i..];
      assert "" + EscapeFrom(s, rule, i) == EscapeFrom(s, rule, i);
      var q := FallsBehind(s, rule, i);
      NeverCatchesUp(s, rule, NextEscaped(s, rule, i) + 1, q, 2);
    }
  }

  lemma NextOfSplice(s: string, rule: Rule, i: nat)
    requires i < |s| && SpliceAt(s, rule, i)
    ensures var k := NextEscaped(s, rule, i); k < |s| && Escaped(s, rule, k) && Splices(PlainFrom(s, rule, i))
  {
  }

  lemma FirstSplice(s: string, rule: Rule) returns (i: nat)
    requires !NoSplice(s, rule)
    ensures i < |s| && SpliceAt(s, rule, i) && forall j :: 0 <= j < i ==> !SpliceAt(s, rule, j)
  {
    hide SpliceAt;
    i := 0;
    while !SpliceAt(s, rule, i)
      invariant i < |s| && forall j :: 0 <= j < i ==> !SpliceAt(s, rule, j)
      decreases |s| - i
    {
      i := i + 1;
    }
  }

  // ---- the loops ----

  lemma PrefixChar(t: string, p: string, j: nat)
    requires j < |p|
    ensures HasPrefix(t, p) ==> |t| > j && t[j] == p[j]
  {
  }

  lemma HeadMismatch(t: string, j: nat)
    requires j < 4 && (|t| <= j || t[j] != "__0x"[j])
    ensures ParseEscape(t).None?
  {
    PrefixChar(t, "__0x", j);
  }

  lemma HeadMatches(t: string, h: string, rest: string)
    requires |t| >= 4 && t[..4] == "__0x" && t[4..] == h + rest
    requires '_' !in h && (rest != "" ==> rest[0] == '_')
    ensures ParseEscape(t)
         == (if |rest| < 2 || rest[1] != '_' then None
             else match ParseInt(h, 16, MAX_INT32) case None => None case Some(v) => Some(Parsed(RuneToChar(v), |h| + 6)))
  {
    hide ParseInt;
    if rest == "" {
      assert h + rest == h;
      NoUnderscore(h);
    } else {
      UnderscoreAfter(h, rest);
      assert t[4..4 + |h|] == t[4..][..|h|] == h;
      assert |rest| >= 2 ==> t[4 + |h| + 1] == rest[1];
    }
  }

  /** unescape(r, i): is there an escape sequence at i, and up to which index? */
  method UnescapeAt(r: string, start: nat) returns (ok: bool, rune: int, last: nat)
    requires start < |r|
    ensures ok == ParseEscape(r[start..]).Some?
    ensures ok ==> start <= last < |r|
    ensures ok ==> ParseEscape(r[start..]).value == Parsed(RuneToChar(rune), last + 1 - start)
  {
    hide ParseInt, ParseEscape;
    ghost var t := r[start..];
    ok, rune, last := false, 0, 0;
    var i := start;
    if r[i] != '_' { HeadMismatch(t, 0); return; }
    i := i + 1;
    if i >= |r| || r[i] != '_' { HeadMismatch(t, 1); return; }
    i := i + 1;
    if i >= |r| || r[i] != '0' { HeadMismatch(t, 2); return; }
    i := i + 1;
    if i >= |r| || r[i] != 'x' { HeadMismatch(t, 3); return; }
    i := i + 1;
    assert t[..4] == "__0x";
    var hexDigits := "";
    while i < |r| && r[i] != '_'
      invariant start + 4 <= i <= |r|
      invariant hexDigits == r[start + 4..i] && '_' !in hexDigits
    {
      assert r[start + 4..i + 1] == r[start + 4..i] + [r[i]];
      hexDigits := hexDigits + [r[i]];
      i := i + 1;
    }
    assert t[4..] == hexDigits + r[i..];
    HeadMatches(t, hexDigits, r[i..]);
    if i >= |r| || r[i] != '_' { return; }
    i := i + 1;
    if i >= |r| || r[i] != '_' { return; }
    match ParseInt(hexDigits, 16, MAX_INT32) {
      case None => return;
      case Some(v) => return true, v, i;
    }
  }

  lemma {:induction false} NoUnderscore(t: string)
    requires '_' !in t
    ensures Underscore(t) == |t|
  {
    if t != "" {
      assert t[0] in t;
      NoUnderscore(t[1..]);
    }
  }

  method HexUnescape(s: string) returns (t: string)
    ensures t == Unescape(s)
  {
    hide ParseEscape, Unescape;
    var unescaped: Option<string> := None;
    var i := 0;
    while i < |s|
      invariant 0 <= i <= |s|
      invariant unescaped.None? ==> Unescape(s) == s[..i] + Unescape(s[i..])
      invariant unescaped.Some? ==> Unescape(s) == unescaped.value + Unescape(s[i..])
    {
      UnescapeStep(s, i);
      var ok, newR, newI := UnescapeAt(s, i);
      if ok {
        if unescaped.None? {
          unescaped := Some(s[..i]);
        }
        AppendHead(unescaped.value, RuneToChar(newR), Unescape(s[newI + 1..]));
        unescaped := Some(unescaped.value + [RuneToChar(newR)]);
        i := newI;
      } else if unescaped.Some? {
        AppendHead(unescaped.value, s[i], Unescape(s[i + 1..]));
        unescaped := Some(unescaped.value + [s[i]]);
      } else {
        AppendHead(s[..i], s[i], Unescape(s[i + 1..]));
        assert s[..i + 1] == s[..i] + [s[i]];
      }
      i := i + 1;
    }
    assert s[i..] == "" && s[..i] == s;
    UnescapeEmpty();
    if unescaped.None? {
      assert s + "" == s;
      return s;
    }
    assert unescaped.value + "" == unescaped.value;
    return unescaped.value;
  }

  lemma UnescapeEmpty()
    ensures Unescape("") == ""
  {
  }

  lemma AppendHead(a: string, c: char, b: string)
    ensures a + ([c] + b) == (a + [c]) + b
  {
  }

  lemma UnescapeStep(s: string, i: nat)
    requires i < |s|
    ensures match ParseEscape(s[i..])
            case Some(p) => i + p.length <= |s| && Unescape(s[i..]) == [p.rune] + Unescape(s[i + p.length..])
            case None => Unescape(s[i..]) == [s[i]] + Unescape(s[i + 1..])
  {
    hide ParseEscape;
    match ParseEscape(s[i..])
    case Some(p) => assert s[i..][p.length..] == s[i + p.length..];
    case None => assert s[i..][1..] == s[i + 1..];
  }

  /** An escape sequence needs at most 14 runes, so 13 extra ones a position. */
  lemma EscapeRuneLength(c: char)
    ensures |EscapeRune(c)| <= 14
  {
    PrintLength(c as int, 6);
  }

  lemma {:induction false} PrintLength(n: nat, w: nat)
    requires w >= 1 && n < Power16(w)
    ensures |Print(n, 16)| <= w
  {
    if n >= 16 {
      PrintLength(n / 16, w - 1);
    }
  }

  function Power16(w: nat): nat {
    if w == 0 then 1 else 16 * Power16(w - 1)
  }

  /** The positions below n that are to be escaped, in ascending order. */
  function EscapedPositions(s: string, rule: Rule, n: nat): (at: seq<nat>)
    requires n <= |s|
    ensures forall m :: 0 <= m < |at| ==> at[m] < n
  {
    if n == 0 then []
    else EscapedPositions(s, rule, n - 1) + if Escaped(s, rule, n - 1) then [n - 1] else []
  }

  /** Position i is next in the list exactly if it is to be escaped. */
  lemma {:induction false} NextPosition(s: string, rule: Rule, i: nat, n: nat)
    requires i < n <= |s|
    ensures var before, at := EscapedPositions(s, rule, i), EscapedPositions(s, rule, n);
            before <= at && (|before| < |at| && at[|before|] == i <==> Escaped(s, rule, i))
  {
    hide Escaped;
    var before, at := EscapedPositions(s, rule, i), EscapedPositions(s, rule, n);
    if i + 1 < n {
      NextPosition(s, rule, i, n - 1);
      assert EscapedPositions(s, rule, n - 1) <= at;
    }
  }

  method Positions(s: string, rule: Rule) returns (toEscape: seq<nat>)
    ensures toEscape == EscapedPositions(s, rule, |s|)
  {
    hide ParseEscape;
    toEscape := [];
    for i := 0 to |s|
      invariant toEscape == EscapedPositions(s, rule, i)
    {
      var ok, _, _ := UnescapeAt(s, i);
      if rule(s, i) || ok {
        toEscape := toEscape + [i];
      }
    }
  }

  /** The inner loop: write x into the buffer behind the first j runes. */
  method Write(buffer: array<char>, j: nat, x: string) returns (end: nat)
    requires j + |x| <= buffer.Length
    modifies buffer
    ensures end == j + |x| && buffer[..end] == old(buffer[..j]) + x
  {
    end := j;
    for m := 0 to |x|
      invariant end == j + m && buffer[..end] == old(buffer[..j]) + x[..m]
    {
      buffer[end] := x[m];
      end := end + 1;
      assert buffer[..end] == buffer[..end - 1] + [x[m]];
    }
    assert x[..|x|] == x;
  }

  /** HexEscape: note the positions to escape, then fill a buffer that is sized by
      their number. */
  method HexEscape(s: string, rule: Rule) returns (t: string)
    ensures t == Escape(s, rule)
  {
    hide ParseEscape, Print, Escaped, EscapeFrom, EscapeRune, EscapedPositions;
    var toEscape := Positions(s, rule);
    if |toEscape| == 0 {
      forall i | 0 <= i < |s| ensures !Escaped(s, rule, i) {
        NextPosition(s, rule, i, |s|);
      }
      EscapeFromPlain(s, rule, 0, |s|);
      EscapeFromEnd(s, rule);
      assert s[0..|s|] + "" == s;
      return s;
    }
    var escaped := new char[|s| + 13 * |toEscape|];
    var n, j := 0, 0;
    NoPositions(s, rule);
    assert Escape(s, rule) == escaped[..j] + EscapeFrom(s, rule, 0);
    for i := 0 to |s|
      invariant n == |EscapedPositions(s, rule, i)| <= |toEscape|
      invariant 0 <= j <= i + 13 * n
      invariant j <= escaped.Length
      invariant Escape(s, rule) == escaped[..j] + EscapeFrom(s, rule, i)
    {
      NextPosition(s, rule, i, |s|);
      if i + 1 < |s| {
        NextPosition(s, rule, i + 1, |s|);
      }
      PieceStep(s, rule, i, escaped[..j]);
      if n < |toEscape| && i == toEscape[n] {
        EscapeRuneLength(s[i]);
        j := Write(escaped, j, EscapeRune(s[i]));
        n := n + 1;
      } else {
        j := Write(escaped, j, [s[i]]);
      }
    }
    EscapeFromEnd(s, rule);
    assert escaped[..j] + "" == escaped[..j];
    return escaped[..j];
  }

  lemma NoPositions(s: string, rule: Rule)
    ensures EscapedPositions(s, rule, 0) == []
  {
  }

  lemma PieceStep(s: string, rule: Rule, i: nat, done: string)
    requires i < |s|
    ensures done + EscapeFrom(s, rule, i)
         == (done + if Escaped(s, rule, i) then EscapeRune(s[i]) else [s[i]]) + EscapeFrom(s, rule, i + 1)
    ensures EscapedPositions(s, rule, i + 1)
         == EscapedPositions(s, rule, i) + if Escaped(s, rule, i) then [i] else []
  {
    hide Escaped, EscapeRune;
    var piece := EscapePiece(s, rule, i);
    var rest := EscapeFrom(s, rule, i + 1);
    assert EscapeFrom(s, rule, i) == piece + rest;
    assert done + (piece + rest) == (done + piece) + rest;
  }
}
