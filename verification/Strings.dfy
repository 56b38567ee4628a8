/** Strings as sequences of code points, with the ordering and the searches that
    the Go sources use: `<` on strings, strings.HasPrefix, strings.Index and
    friends.  (Dafny's own `<` and `<=` on sequences are the prefix relations.) */
module Strings {

  datatype Option<+T> = None | Some(value: T)

  type Bytes = seq<bv8>

  /** Go's `a < b`: lexicographic order.  On valid UTF-8 the byte order and the
      code point order agree. */
  predicate Less(a: string, b: string) {
    b != "" && (a == "" || a[0] < b[0] || (a[0] == b[0] && Less(a[1..], b[1..])))
  }

  predicate AtMost(a: string, b: string) {
    a == b || Less(a, b)
  }

  predicate HasPrefix(s: string, p: string) {
    p <= s
  }

  predicate HasSuffix(s: string, x: string) {
    |x| <= |s| && s[|s| - |x|..] == x
  }

  predicate OccursAt(s: string, x: string, i: int) {
    0 <= i <= |s| - |x| && s[i..i + |x|] == x
  }

  predicate Contains(s: string, x: string) {
    exists i :: 0 <= i <= |s| && OccursAt(s, x, i)
  }

  /** strings.Index: where x first occurs in s. */
  function Index(s: string, x: string): (r: Option<nat>)
    ensures r.None? ==> forall i :: !OccursAt(s, x, i)
    ensures r.Some? ==> OccursAt(s, x, r.value) && forall i :: 0 <= i < r.value ==> !OccursAt(s, x, i)
  {
    IndexFrom(s, x, 0)
  }

  function IndexFrom(s: string, x: string, from: nat): (r: Option<nat>)
    requires forall i :: 0 <= i < from ==> !OccursAt(s, x, i)
    ensures r.None? ==> forall i :: !OccursAt(s, x, i)
    ensures r.Some? ==> OccursAt(s, x, r.value) && forall i :: 0 <= i < r.value ==> !OccursAt(s, x, i)
    decreases |s| + 1 - from
  {
    if from + |x| > |s| then None
    else if OccursAt(s, x, from) then Some(from)
    else IndexFrom(s, x, from + 1)
  }

  /** strings.LastIndex(s, "/"). */
  function LastSlash(s: string): (r: Option<nat>)
    ensures r.None? ==> '/' !in s
    ensures r.Some? ==> r.value < |s| && s[r.value] == '/' && '/' !in s[r.value + 1..]
  {
    if s == "" then None
    else if s[|s| - 1] == '/' then Some(|s| - 1)
    else
      var r := LastSlash(s[..|s| - 1]);
      assert s == s[..|s| - 1] + [s[|s| - 1]];
      assert r.Some? ==> s[r.value + 1..] == s[..|s| - 1][r.value + 1..] + [s[|s| - 1]];
      r
  }

  // ---- the order ----

  /** Up to i the texts are the same, and there a ends or has the smaller code point. */
  predicate DiffersAt(a: string, b: string, i: nat) {
    i <= |a| && i < |b| && a[..i] == b[..i] && (i == |a| || a[i] < b[i])
  }

  lemma DiffersLater(a: string, b: string, i: nat)
    requires i > 0
    ensures DiffersAt(a, b, i) <==> a != "" && b != "" && a[0] == b[0] && DiffersAt(a[1..], b[1..], i - 1)
  {
    if a != "" && b != "" && i <= |a| && i < |b| {
      var x, y := a[1..], b[1..];
      assert a[..i] == [a[0]] + x[..i - 1] && b[..i] == [b[0]] + y[..i - 1];
      assert a[..i] == b[..i] ==> a[..i][0] == b[..i][0] && a[..i][1..] == b[..i][1..];
      assert a[..i][1..] == x[..i - 1] && b[..i][1..] == y[..i - 1];
      assert i < |a| ==> x[i - 1] == a[i];
      assert y[i - 1] == b[i];
    }
  }

  lemma {:induction false} LessIff(a: string, b: string)
    ensures Less(a, b) <==> exists i: nat :: DiffersAt(a, b, i)
  {
    hide DiffersAt;
    forall i: nat | i > 0 ensures DiffersAt(a, b, i) <==>
                                  a != "" && b != "" && a[0] == b[0] && DiffersAt(a[1..], b[1..], i - 1) {
      DiffersLater(a, b, i);
    }
    DiffersFirst(a, b);
    if a != "" && b != "" && a[0] == b[0] {
      LessIff(a[1..], b[1..]);
      if Less(a, b) {
        var i: nat :| DiffersAt(a[1..], b[1..], i);
        assert DiffersAt(a, b, i + 1);
      }
    }
  }

  lemma DiffersFirst(a: string, b: string)
    ensures DiffersAt(a, b, 0) <==> b != "" && (a == "" || a[0] < b[0])
  {
    assert b != "" ==> a[..0] == b[..0];
  }

  lemma {:induction false} LessTransitive(a: string, b: string, c: string)
    requires Less(a, b) && Less(b, c)
    ensures Less(a, c)
  {
    if a != "" && a[0] == b[0] && b[0] == c[0] {
      LessTransitive(a[1..], b[1..], c[1..]);
    }
  }

  lemma {:induction false} LessIrreflexive(a: string)
    ensures !Less(a, a)
  {
    if a != "" {
      LessIrreflexive(a[1..]);
    }
  }

  lemma LessAsymmetric(a: string, b: string)
    requires Less(a, b)
    ensures !Less(b, a) && a != b
  {
    LessIrreflexive(a);
    if Less(b, a) {
      LessTransitive(a, b, a);
    }
  }

  lemma {:induction false} LessTotal(a: string, b: string)
    ensures Less(a, b) || a == b || Less(b, a)
  {
    if a != "" && b != "" && a[0] == b[0] {
      LessTotal(a[1..], b[1..]);
      assert a == [a[0]] + a[1..];
      assert b == [b[0]] + b[1..];
    }
  }

  lemma AtMostLess(a: string, b: string, c: string)
    requires AtMost(a, b) && Less(b, c)
    ensures Less(a, c)
  {
    if a != b {
      LessTransitive(a, b, c);
    }
  }

  lemma LessAtMost(a: string, b: string, c: string)
    requires Less(a, b) && AtMost(b, c)
    ensures Less(a, c)
  {
    if b != c {
      LessTransitive(a, b, c);
    }
  }

  /** A prefix comes no later than the string it begins. */
  lemma {:induction false} PrefixAtMost(p: string, s: string)
    requires HasPrefix(s, p)
    ensures AtMost(p, s)
  {
    if p != "" {
      PrefixAtMost(p[1..], s[1..]);
      assert p == [p[0]] + p[1..];
      assert s == [s[0]] + s[1..];
    }
  }

  /** The strings that begin with p form an interval of the order. */
  lemma {:induction false} PrefixInterval(p: string, x: string, s: string)
    requires AtMost(p, x) && AtMost(x, s) && HasPrefix(s, p)
    ensures HasPrefix(x, p)
  {
    if p != "" && p != x && x != s {
      assert x[0] == p[0];
      assert AtMost(p[1..], x[1..]) by {
        assert Less(p[1..], x[1..]);
      }
      assert AtMost(x[1..], s[1..]) by {
        assert Less(x[1..], s[1..]);
      }
      PrefixInterval(p[1..], x[1..], s[1..]);
      assert p == [p[0]] + p[1..];
      assert x == [x[0]] + x[1..];
    }
  }

  /** Strings ordered by a difference stay ordered whatever is appended. */
  lemma {:induction false} LessExtends(a: string, b: string, s: string, t: string)
    requires Less(a, b) && !HasPrefix(b, a)
    requires HasPrefix(s, a) && HasPrefix(t, b)
    ensures Less(s, t)
  {
    if a[0] == b[0] {
      assert a == [a[0]] + a[1..] && b == [b[0]] + b[1..];
      LessExtends(a[1..], b[1..], s[1..], t[1..]);
    }
  }

  // ---- searching ----

  /** The first occurrence is decided by the text up to its end. */
  lemma IndexPrefix(s: string, t: string, x: string)
    requires Index(s, x).Some?
    requires Index(s, x).value + |x| <= |t|
    requires t[..Index(s, x).value + |x|] == s[..Index(s, x).value + |x|]
    ensures Index(t, x) == Index(s, x)
  {
    var i := Index(s, x).value;
    var cut := i + |x|;
    forall j | 0 <= j <= i
      ensures OccursAt(t, x, j) == OccursAt(s, x, j)
    {
      assert forall m :: 0 <= m < cut ==> t[m] == t[..cut][m] && s[m] == s[..cut][m];
      assert t[j..j + |x|] == s[j..j + |x|];
    }
    assert OccursAt(t, x, i);
  }
}
