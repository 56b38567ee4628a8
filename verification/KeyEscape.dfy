/** The escaping of blob keys (internal/escape/key.go), and how it treats the
    slashes that separate directories. */
module KeyEscape {
  import opened Strings
  import opened Numerals
  import opened Escape

  function KeyRule(r: string, i: nat): bool {
    i < |r| &&
    var c := r[i];
    || c < ' '
    || c == '\\'
    || (i > 1 && c == '/' && r[i - 1] == '.' && r[i - 2] == '.')
    || (i > 0 && c == '/' && r[i - 1] == '/')
    || (c == '/' && i == |r| - 1)
    || c in "><:\"|?*"
  }

  function EscapeKey(key: string): string {
    Escape.Escape(key, KeyRule)
  }

  function UnescapeKey(path: string): string {
    Unescape(path)
  }

  predicate KeyNoSplice(key: string) {
    NoSplice(key, KeyRule)
  }

  /** Keys without splices survive being escaped and unescaped... */
  lemma KeyRoundTrip(key: string)
    requires KeyNoSplice(key)
    ensures UnescapeKey(EscapeKey(key)) == key
  {
    RoundTrip(key, KeyRule);
  }

  /** ...and no other keys do. */
  lemma KeyRoundTripIff(key: string)
    ensures UnescapeKey(EscapeKey(key)) == key <==> KeyNoSplice(key)
  {
    RoundTripIff(key, KeyRule);
  }

  /** A key that does not survive: its text "__0x2f" and the escape sequence of
      the backslash behind it read as an escaped slash. */
  lemma SpliceWitness()
    ensures UnescapeKey(EscapeKey("__0x2f\\")) != "__0x2f\\"
  {
    hide ParseEscape, Unescape, EscapeFrom;
    var key := "__0x2f\\";
    WitnessPositions(key);
    WitnessSplices(key[..6]);
    assert key[0..6] == key[..6];
    assert SpliceAt(key, KeyRule, 0);
    KeyRoundTripIff(key);
  }

  lemma WitnessSplices(x: string)
    requires x == "__0x2f"
    ensures Splices(x)
  {
    var s := "2f";
    assert x[4..] == s && x[..4] == "__0x";
    assert s[..1] == "2" && "2"[..0] == "";
    assert Magnitude("2", 16) == 2;
    assert Magnitude(s, 16) == 0x2f;
    assert Accepted(s);
  }

  lemma WitnessPositions(key: string)
    requires key == "__0x2f\\"
    ensures NextEscaped(key, KeyRule, 0) == 6
  {
    hide ParseEscape;
    var k := NextEscaped(key, KeyRule, 0);
    assert Escaped(key, KeyRule, 6);
    forall i: nat | i < 6
      ensures !Escaped(key, KeyRule, i)
    {
      assert key[i..][0] == key[i] && key[i..][1] == key[i + 1] && key[i..][2..] == key[i + 2..];
      if ParseEscape(key[i..]).Some? {
        ParsedSpan(key[i..]);
      }
    }
  }

  // ---- what is escaped ----

  /** What a key's escaped form has none of. */
  ghost predicate IsTame(t: string) {
    && (forall i :: 0 <= i < |t| ==> IsTameChar(t[i]))
    && (forall i :: !OccursAt(t, "../", i)) && (forall i :: !OccursAt(t, "//", i))
    && (t != "" ==> t[|t| - 1] != '/')
  }

  /** The rune at i is one that must not stay: it is reserved, or it is the slash of "../",
      the second one of "//", or the last one. */
  predicate IsWild(t: string, i: nat)
    requires i < |t|
  {
    || t[i] as int < 32 || t[i] in "\\<>:\"|?*"
    || (i >= 2 && t[i - 2..i + 1] == "../")
    || (i >= 1 && t[i - 1..i + 1] == "//")
    || (t[i] == '/' && i == |t| - 1)
  }

  lemma KeyRuleIff(t: string, i: nat)
    requires i < |t|
    ensures KeyRule(t, i) <==> IsWild(t, i)
  {
    if i >= 2 {
      assert t[i - 2..i + 1] == [t[i - 2], t[i - 1], t[i]];
    }
    if i >= 1 {
      assert t[i - 1..i + 1] == [t[i - 1], t[i]];
    }
  }

  lemma WildByOccurrence(t: string, i: int)
    ensures OccursAt(t, "../", i) ==> 0 <= i && i + 2 < |t| && IsWild(t, i + 2)
    ensures OccursAt(t, "//", i) ==> 0 <= i && i + 1 < |t| && IsWild(t, i + 1)
  {
    if OccursAt(t, "../", i) {
      assert t[i..i + 3] == t[i + 2 - 2..i + 2 + 1];
    }
  }

  lemma WildMeans(t: string, i: nat)
    requires i < |t|
    ensures IsWild(t, i) <==> !IsTameChar(t[i]) || OccursAt(t, "../", i - 2) || OccursAt(t, "//", i - 1)
                              || (t[i] == '/' && i == |t| - 1)
  {
  }

  predicate IsTameChar(c: char) { 32 <= c as int && c !in "\\<>:\"|?*" }

  lemma TameIff(t: string)
    ensures IsTame(t) <==> forall i :: 0 <= i < |t| ==> !IsWild(t, i)
  {
    hide IsWild, OccursAt;
    forall i: nat | i < |t|
      ensures IsWild(t, i) <==> !IsTameChar(t[i]) || OccursAt(t, "../", i - 2) || OccursAt(t, "//", i - 1)
                                || (t[i] == '/' && i == |t| - 1)
    {
      WildMeans(t, i);
    }
    forall i
      ensures OccursAt(t, "../", i) ==> 0 <= i && i + 2 < |t| && IsWild(t, i + 2)
      ensures OccursAt(t, "//", i) ==> 0 <= i && i + 1 < |t| && IsWild(t, i + 1)
    {
      WildByOccurrence(t, i);
    }
    if t != "" && t[|t| - 1] == '/' {
      assert IsWild(t, |t| - 1);
    }
  }

  /** The runes that escape sequences are made of. */
  predicate IsSequenceChar(c: char) { c == '_' || c == 'x' || '0' <= c <= '9' || 'a' <= c <= 'f' }

  lemma SequenceCharIsTame(c: char)
    requires IsSequenceChar(c)
    ensures IsTameChar(c) && !IsDotOrSlash(c)
  {
  }

  lemma HexDigitIs(c: char)
    requires c in DIGITS
    ensures IsSequenceChar(c)
  {
  }

  lemma SequenceChars(c: char)
    ensures var e := EscapeRune(c);
            |e| >= 6 && e[|e| - 1] == '_' && forall j :: 0 <= j < |e| ==> IsSequenceChar(e[j])
  {
    hide Print, IsSequenceChar;
    PrintedDigits(c as int, 16);
    var h, e := Print(c as int, 16), EscapeRune(c);
    assert e == "__0x" + h + "__";
    forall j | 0 <= j < |e|
      ensures IsSequenceChar(e[j])
    {
      if 4 <= j < 4 + |h| {
        assert e[j] == h[j - 4] && h[j - 4] in h;
        HexDigitIs(e[j]);
      } else {
        FrameChars(e[j]);
      }
    }
  }

  lemma FrameChars(c: char)
    requires c == '_' || c == '0' || c == 'x'
    ensures IsSequenceChar(c)
  {
  }

  predicate IsDotOrSlash(c: char) { c == '.' || c == '/' }

  /** Dots and slashes at the start of what is written are runes that were left alone. */
  lemma {:induction false} DotsAreAsWritten(key: string, i: nat, k: nat)
    requires i <= |key| && k <= |EscapeFrom(key, KeyRule, i)|
    requires forall j :: 0 <= j < k ==> IsDotOrSlash(EscapeFrom(key, KeyRule, i)[j])
    ensures i + k <= |key| && key[i..i + k] == EscapeFrom(key, KeyRule, i)[..k]
    ensures forall j :: i <= j < i + k ==> !KeyRule(key, j)
    decreases k
  {
    hide ParseEscape, EscapeRune, KeyRule, EscapeFrom;
    if k > 0 {
      var t := EscapeFrom(key, KeyRule, i);
      assert IsDotOrSlash(t[0]);
      FirstIsPlain(key, i);
      var rest := EscapeFrom(key, KeyRule, i + 1);
      assert t == [key[i]] + rest;
      forall j | 0 <= j < k - 1
        ensures IsDotOrSlash(rest[j])
      {
        assert t[j + 1] == rest[j];
      }
      DotsAreAsWritten(key, i + 1, k - 1);
      assert key[i..i + k] == [key[i]] + key[i + 1..i + k];
      assert t[..k] == [key[i]] + rest[..k - 1];
    }
  }

  lemma FirstIsPlain(key: string, i: nat)
    requires i <= |key|
    requires var t := EscapeFrom(key, KeyRule, i); t != "" && IsDotOrSlash(t[0])
    ensures i < |key| && !KeyRule(key, i) && EscapeFrom(key, KeyRule, i) == [key[i]] + EscapeFrom(key, KeyRule, i + 1)
  {
    hide ParseEscape, EscapeRune, KeyRule;
    SequenceChars(key[i]);
    var piece := EscapePiece(key, KeyRule, i);
    assert EscapeFrom(key, KeyRule, i)[0] == piece[0];
  }

  lemma WildIsEscaped(key: string, m: nat)
    ensures m + 3 <= |key| && key[m..m + 3] == "../" ==> KeyRule(key, m + 2)
    ensures m + 2 <= |key| && key[m..m + 2] == "//" ==> KeyRule(key, m + 1)
  {
    if m + 3 <= |key| {
      KeyRuleIff(key, m + 2);
    }
    if m + 2 <= |key| {
      KeyRuleIff(key, m + 1);
    }
  }

  /** So what begins the written text begins no "../" and no "//". */
  lemma NothingWildFirst(key: string, i: nat)
    requires i <= |key|
    ensures !OccursAt(EscapeFrom(key, KeyRule, i), "../", 0) && !OccursAt(EscapeFrom(key, KeyRule, i), "//", 0)
  {
    hide EscapeFrom, KeyRule;
    var t := EscapeFrom(key, KeyRule, i);
    WildIsEscaped(key, i);
    assert OccursAt(t, "../", 0) ==> t[..3] == "../" && t[0] == t[..3][0] && t[1] == t[..3][1] && t[2] == t[..3][2];
    assert OccursAt(t, "//", 0) ==> t[..2] == "//" && t[0] == t[..2][0] && t[1] == t[..2][1];
    if OccursAt(t, "../", 0) {
      DotsAreAsWritten(key, i, 3);
    }
    if OccursAt(t, "//", 0) {
      DotsAreAsWritten(key, i, 2);
    }
  }

  lemma {:induction false} TameFrom(key: string, i: nat)
    requires i <= |key|
    ensures IsTame(EscapeFrom(key, KeyRule, i))
    decreases |key| - i
  {
    hide ParseEscape, EscapeRune, KeyRule, IsWild, OccursAt;
    var t := EscapeFrom(key, KeyRule, i);
    if i < |key| {
      var piece, rest := EscapePiece(key, KeyRule, i), EscapeFrom(key, KeyRule, i + 1);
      TameFrom(key, i + 1);
      PieceIsTame(key, i);
      NothingWildFirst(key, i);
      assert t == piece + rest;
      forall j ensures !OccursAt(t, "../", j) && !OccursAt(t, "//", j) {
        LaterOccurs(piece, rest, "../", j);
        LaterOccurs(piece, rest, "//", j);
      }
      forall j | 0 <= j < |t|
        ensures IsTameChar(t[j])
      {
        if j < |piece| {
          assert t[j] == piece[j];
        } else {
          assert t[j] == rest[j - |piece|];
        }
      }
      PlainIff(key, KeyRule, i + 1);
      assert if rest == "" then t == piece else t[|t| - 1] == rest[|rest| - 1];
    } else {
      EmptyIsTame();
    }
  }

  lemma EmptyIsTame()
    ensures IsTame("")
  {
  }

  /** A piece has only tame runes, and if it has a dot or a slash it is just that; a slash
      is not at the end of the key. */
  lemma PieceIsTame(key: string, i: nat)
    requires i < |key|
    ensures var piece := EscapePiece(key, KeyRule, i);
            && piece != "" && (forall j :: 0 <= j < |piece| ==> IsTameChar(piece[j]))
            && (|piece| > 1 ==> forall j :: 0 <= j < |piece| ==> !IsDotOrSlash(piece[j]))
            && (i == |key| - 1 ==> piece[|piece| - 1] != '/')
  {
    hide ParseEscape, EscapeRune, KeyRule, IsTameChar, IsSequenceChar, IsDotOrSlash;
    SequenceChars(key[i]);
    KeyRuleIff(key, i);
    WildMeans(key, i);
    var e := EscapeRune(key[i]);
    forall j | 0 <= j < |e|
      ensures IsTameChar(e[j]) && !IsDotOrSlash(e[j])
    {
      SequenceCharIsTame(e[j]);
    }
  }

  /** Of two texts one behind the other, what begins with a dot or a slash begins in the
      second, if it does not begin with the first. */
  lemma LaterOccurs(a: string, b: string, x: string, j: int)
    requires a != "" && x != "" && IsDotOrSlash(x[0])
    requires |a| > 1 ==> forall i :: 0 <= i < |a| ==> !IsDotOrSlash(a[i])
    ensures OccursAt(a + b, x, j) ==> j == 0 || OccursAt(b, x, j - |a|)
  {
    var t := a + b;
    assert forall i :: 0 <= i < |a| ==> t[i] == a[i];
    if OccursAt(t, x, j) && j != 0 {
      assert t[j] == t[j..j + |x|][0] == x[0];
      assert t[j..j + |x|] == b[j - |a|..j - |a| + |x|];
    }
  }

  /** The escaped form is tame: it climbs out of no directory, names no empty one, and is
      none itself, and it has no rune that a file system takes amiss. */
  lemma EscapedIsTame(key: string)
    ensures IsTame(EscapeKey(key))
  {
    hide IsTame;
    TameFrom(key, 0);
  }

  /** Which runes of a key are escaped: the wild ones, and those that begin what would read
      as an escape sequence. */
  lemma KeyEscapesIff(key: string, i: nat)
    requires i < |key|
    ensures Escaped(key, KeyRule, i) <==> IsWild(key, i) || exists h, v, d :: BeginsSequence(key[i..], h, v, d)
  {
    hide IsWild, ParseEscape, KeyRule, BeginsSequence;
    KeyRuleIff(key, i);
    ParseEscapeIff(key[i..]);
  }

  /** So a key is its own escaped form if and only if it is tame itself, and nothing in it
      reads as an escape sequence. */
  lemma UnchangedIff(key: string)
    ensures EscapeKey(key) == key
       <==> IsTame(key) && forall i, h, v, d :: 0 <= i < |key| ==> !BeginsSequence(key[i..], h, v, d)
  {
    hide IsTame, IsWild, Escaped, BeginsSequence, EscapeFrom;
    TameIff(key);
    forall i: nat | i < |key|
      ensures Escaped(key, KeyRule, i) <==> IsWild(key, i) || exists h, v, d :: BeginsSequence(key[i..], h, v, d)
    {
      KeyEscapesIff(key, i);
    }
    PlainIff(key, KeyRule, 0);
    assert key[0..] == key;
  }

  lemma {:induction false} PlainIff(s: string, rule: Rule, i: nat)
    requires i <= |s|
    ensures EscapeFrom(s, rule, i) == s[i..] <==> forall j :: i <= j < |s| ==> !Escaped(s, rule, j)
    ensures |EscapeFrom(s, rule, i)| >= |s| - i
    ensures |EscapeFrom(s, rule, i)| > |s| - i || forall j :: i <= j < |s| ==> !Escaped(s, rule, j)
    decreases |s| - i
  {
    hide Escaped, EscapeRune;
    if i < |s| {
      PlainIff(s, rule, i + 1);
      SequenceChars(s[i]);
      assert s[i..] == [s[i]] + s[i + 1..];
    }
  }

  // ---- slashes ----

  /** An escape sequence has no '/' in it, so none reaches across one. */
  lemma ParseStopsAtSlash(d: string, n: string)
    requires d != ""
    ensures ParseEscape(d + "/" + n) == ParseEscape(d)
  {
    hide ParseEscape, ParseInt;
    assert d + "/" + n == d + ("/" + n);
    if ParseEscape(d).Some? {
      ParseEscapePrefix(d, "/" + n);
    } else if ParseEscape(d + ("/" + n)).Some? {
      var t := d + ("/" + n);
      ParsedSpan(t);
      assert t[|d|] == '/';
      ParseEscapeCut(d, "/" + n);
    }
  }

  /** Unescaping works on each side of a slash by itself. */
  lemma {:induction false} UnescapeSplit(d: string, n: string)
    ensures UnescapeKey(d + "/" + n) == UnescapeKey(d) + "/" + UnescapeKey(n)
    decreases |d|
  {
    hide ParseEscape;
    var t := d + "/" + n;
    if d == "" {
      assert t == "/" + n;
      SlashIsPlain(n);
      UnescapeEmpty();
      assert "" + "/" + Unescape(n) == "/" + Unescape(n);
    } else {
      ParseStopsAtSlash(d, n);
      if ParseEscape(d).Some? {
        var p := ParseEscape(d).value;
        assert t[p.length..] == d[p.length..] + "/" + n;
        UnescapeSplit(d[p.length..], n);
        TripleHead(p.rune, Unescape(d[p.length..]), "/", Unescape(n));
      } else {
        assert t[0] == d[0];
        assert t[1..] == d[1..] + "/" + n;
        UnescapeSplit(d[1..], n);
        TripleHead(d[0], Unescape(d[1..]), "/", Unescape(n));
      }
    }
  }

  lemma SlashIsPlain(n: string)
    ensures Unescape("/" + n) == "/" + Unescape(n)
  {
    hide ParseEscape;
    SlashParsesNot("/" + n);
    assert ("/" + n)[0] == '/' && ("/" + n)[1..] == n;
  }

  lemma TripleHead(c: char, a: string, b: string, d: string)
    ensures [c] + (a + b + d) == [c] + a + b + d
  {
  }

  /** A slash between a and b that the rules leave alone. */
  predicate PlainSlash(a: string, b: string) {
    b != "" && b[0] != '/' && !HasSuffix(a, "/") && !HasSuffix(a, "..")
  }

  lemma NoSuffix(a: string)
    ensures HasSuffix(a, "/") <==> a != "" && a[|a| - 1] == '/'
    ensures HasSuffix(a, "..") <==> |a| >= 2 && a[|a| - 1] == '.' && a[|a| - 2] == '.'
  {
  }

  lemma KeyRuleHead(a: string, b: string, i: nat)
    requires PlainSlash(a, b) && i <= |a|
    ensures KeyRule(a + "/" + b, i) == (i < |a| && KeyRule(a, i))
  {
    hide HasSuffix;
    NoSuffix(a);
    var w := a + "/" + b;
    assert w[|a|] == '/';
    assert forall j :: 0 <= j < |a| ==> w[j] == a[j];
  }

  lemma KeyRuleTail(a: string, b: string, i: nat)
    requires PlainSlash(a, b) && i < |b|
    ensures KeyRule(a + "/" + b, |a| + 1 + i) == KeyRule(b, i)
  {
    hide HasSuffix;
    var w := a + "/" + b;
    var m := |a| + 1 + i;
    assert w[m] == b[i] && (m == |w| - 1 <==> i == |b| - 1);
    if i == 0 {
      assert b[i] != '/';
    } else if i == 1 {
      assert w[m - 1] == b[0] && w[m - 2] == '/';
    } else {
      assert w[m - 1] == b[i - 1] && w[m - 2] == b[i - 2];
    }
  }

  lemma EscapedSplit(a: string, b: string, i: nat)
    requires PlainSlash(a, b)
    ensures i < |a| ==> Escaped(a + "/" + b, KeyRule, i) == Escaped(a, KeyRule, i)
    ensures !Escaped(a + "/" + b, KeyRule, |a|)
    ensures i < |b| ==> Escaped(a + "/" + b, KeyRule, |a| + 1 + i) == Escaped(b, KeyRule, i)
  {
    hide ParseEscape, KeyRule;
    var w := a + "/" + b;
    KeyRuleHead(a, b, |a|);
    if i < |a| {
      KeyRuleHead(a, b, i);
      ParseStopsAtSlash(a[i..], b);
      assert w[i..] == a[i..] + "/" + b;
    }
    if i < |b| {
      KeyRuleTail(a, b, i);
      assert w[|a| + 1 + i..] == b[i..];
    }
    assert w[|a|..][0] == '/';
    SlashParsesNot(w[|a|..]);
  }

  lemma SlashParsesNot(t: string)
    requires t != "" && t[0] == '/'
    ensures ParseEscape(t).None?
  {
  }

  lemma {:induction false} EscapeTail(a: string, b: string, i: nat)
    requires PlainSlash(a, b) && i <= |b|
    ensures EscapeFrom(a + "/" + b, KeyRule, |a| + 1 + i) == EscapeFrom(b, KeyRule, i)
    decreases |b| - i
  {
    hide Escaped, EscapeRune;
    var w := a + "/" + b;
    if i < |b| {
      EscapedSplit(a, b, i);
      EscapeTail(a, b, i + 1);
      assert w[|a| + 1 + i] == b[i];
      assert EscapePiece(w, KeyRule, |a| + 1 + i) == EscapePiece(b, KeyRule, i);
    } else {
      EscapeFromEnd(w, KeyRule);
      EscapeFromEnd(b, KeyRule);
    }
  }

  lemma {:induction false} EscapeHead(a: string, b: string, i: nat)
    requires PlainSlash(a, b) && i <= |a|
    ensures EscapeFrom(a + "/" + b, KeyRule, i) == EscapeFrom(a, KeyRule, i) + "/" + EscapeKey(b)
    decreases |a| - i
  {
    hide Escaped, EscapeRune;
    var w := a + "/" + b;
    EscapedSplit(a, b, i);
    if i < |a| {
      EscapeHead(a, b, i + 1);
      assert w[i] == a[i];
      var piece, rest := EscapePiece(a, KeyRule, i), EscapeFrom(a, KeyRule, i + 1);
      assert EscapeFrom(w, KeyRule, i) == piece + (rest + "/" + EscapeKey(b));
      assert piece + (rest + "/" + EscapeKey(b)) == (piece + rest) + "/" + EscapeKey(b);
    } else {
      EscapeTail(a, b, 0);
      assert w[|a|] == '/';
      assert EscapeFrom(w, KeyRule, |a|) == "/" + EscapeKey(b);
      assert "" + "/" + EscapeKey(b) == "/" + EscapeKey(b);
    }
  }

  /** Escaping works on each side of a plain slash by itself: the directory of a
      key is named by escaping the part before the slash. */
  lemma EscapeSplit(a: string, b: string)
    requires PlainSlash(a, b)
    ensures EscapeKey(a + "/" + b) == EscapeKey(a) + "/" + EscapeKey(b)
  {
    EscapeHead(a, b, 0);
  }

  /** What is escaped in a text stays so when the text goes on, but for a slash at its end. */
  lemma EscapedInLonger(s: string, t: string, i: nat)
    requires HasPrefix(t, s) && i < |s| && s[|s| - 1] != '/' && Escaped(s, KeyRule, i)
    ensures Escaped(t, KeyRule, i)
  {
    hide ParseEscape;
    assert t == s + t[|s|..];
    if ParseEscape(s[i..]).Some? {
      ParseEscapePrefix(s[i..], t[|s|..]);
      assert t[i..] == s[i..] + t[|s|..];
    } else {
      assert KeyRule(s, i);
      assert t[i] == s[i];
    }
  }

  /** So going on does not make the escaped form shorter. */
  lemma {:induction false} EscapeGrows(s: string, t: string, i: nat)
    requires HasPrefix(t, s) && i <= |s| && (s == "" || s[|s| - 1] != '/')
    ensures |EscapeFrom(s, KeyRule, i)| <= |EscapeFrom(t, KeyRule, i)|
    decreases |s| - i
  {
    hide Escaped, EscapeRune;
    if i < |s| {
      EscapeGrows(s, t, i + 1);
      if Escaped(s, KeyRule, i) {
        EscapedInLonger(s, t, i);
      }
      assert t[i] == s[i];
      LongRune(s[i]);
    }
  }

  lemma EscapeKeyGrows(s: string, t: string)
    requires HasPrefix(t, s) && (s == "" || s[|s| - 1] != '/')
    ensures |EscapeKey(s)| <= |EscapeKey(t)|
  {
    EscapeGrows(s, t, 0);
  }

  lemma LongRune(c: char)
    ensures |EscapeRune(c)| >= 1
  {
    hide Print;
  }

  /** A text that no rule touches and that has no underscore is its own escaped form. */
  lemma NothingToEscape(s: string)
    requires '_' !in s && forall i :: 0 <= i < |s| ==> !KeyRule(s, i)
    ensures EscapeKey(s) == s
  {
    hide ParseEscape, EscapeFrom, KeyRule;
    forall i: nat | i < |s|
      ensures !Escaped(s, KeyRule, i)
    {
      assert s[i..][0] == s[i] && s[i] in s;
      PlainStart(s[i..]);
    }
    EscapeFromPlain(s, KeyRule, 0, |s|);
    EscapeFromEnd(s, KeyRule);
    assert s[0..|s|] + "" == s;
  }

  lemma PlainStart(t: string)
    requires t != "" && t[0] != '_'
    ensures ParseEscape(t).None?
  {
    hide ParseInt;
    assert "__0x"[0] == '_';
  }

  lemma ReadsPlain(s: string)
    requires '_' !in s
    ensures UnescapeKey(s) == s
  {
    UnescapePlain(s, "");
    UnescapeEmpty();
    assert s + "" == s;
  }
}
