/** The remote files of an SFTP bucket: blobs, their sidecars, and the temporary
    files of writes in progress (blob/sftpblob/sftpblob.go:621-641, 836-868). */
module SftpPaths {
  import opened Strings
  import opened Numerals
  import opened Reserved

  /** A remote file, named by what it is for. */
  datatype Path =
    | Blob(key: string)
    | Sidecar(key: string)
    | Temp(key: string, tag: nat)
    | TempSidecar(key: string, tag: nat)

  function Stem(p: Path): string {
    if p.Blob? || p.Sidecar? then p.key else p.key + TEMP_INFIX + Print(p.tag, 16)
  }

  /** Where the file lies; key is the path of the blob, which fullPath has checked not to
      be internal. */
  function Render(p: Path): string {
    if p.Blob? || p.Temp? then Stem(p) else Stem(p) + ATTRS_EXT
  }

  lemma InfixText(s: string, i: int)
    requires OccursAt(s, TEMP_INFIX, i)
    ensures forall j :: 0 <= j < 10 ==> s[i + j] == TEMP_INFIX[j]
  {
    var x := s[i..i + 10];
    assert x == TEMP_INFIX;
    assert forall j :: 0 <= j < 10 ==> x[j] == s[i + j];
  }

  /** Behind a path without the infix come the infix and hexadecimal digits; no other
      path without the infix begins the same name so. */
  lemma SameInfixPlace(k: string, p: string, m: string, q: string)
    requires k + TEMP_INFIX + p == m + TEMP_INFIX + q && !Contains(m, TEMP_INFIX)
    requires p != "" && p[0] in DIGITS
    ensures |k| >= |m|
  {
    hide Contains;
    var s := m + TEMP_INFIX + q;
    assert s[|k|..|k| + 10] == TEMP_INFIX;
    InfixText(s, |k|);
    assert s[|m|..|m| + 10] == TEMP_INFIX;
    InfixText(s, |m|);
    assert s[|k| + 10] == p[0];
    if |k| + 10 <= |m| {
      assert m[|k|..|k| + 10] == s[|k|..|k| + 10];
      ContainsAt(m, TEMP_INFIX, |k|);
    } else if |k| < |m| {
      InfixOverlap(s, |k|, |m|);
    }
  }

  lemma ContainsAt(s: string, x: string, i: int)
    requires OccursAt(s, x, i)
    ensures Contains(s, x)
  {
  }

  /** Two infixes can share no more than the dot, and behind that dot stands a 'g'. */
  lemma InfixOverlap(s: string, i: nat, j: nat)
    requires i < j < i + 10 && j + 10 <= |s| && i + 10 < |s| && s[i + 10] in DIGITS
    requires forall n :: 0 <= n < 10 ==> s[i + n] == TEMP_INFIX[n]
    ensures exists n :: 0 <= n < 10 && s[j + n] != TEMP_INFIX[n]
  {
    assert TEMP_INFIX[0] == '.' && TEMP_INFIX[1] == 'g';
    if j < i + 9 {
      assert TEMP_INFIX[j - i] != '.';
      assert s[i + (j - i)] == TEMP_INFIX[j - i];
      assert s[j + 0] != TEMP_INFIX[0];
    } else {
      assert 'g' !in DIGITS;
      assert s[j + 1] != TEMP_INFIX[1];
    }
  }

  /** The name of a temporary file tells its blob and its tag. */
  lemma TempNamesDiffer(k: string, t: nat, m: string, u: nat)
    requires !Contains(k, TEMP_INFIX) && !Contains(m, TEMP_INFIX)
    requires k + TEMP_INFIX + Print(t, 16) == m + TEMP_INFIX + Print(u, 16)
    ensures k == m && t == u
  {
    hide Print, Contains;
    var p, q := Print(t, 16), Print(u, 16);
    PrintedDigits(t, 16);
    PrintedDigits(u, 16);
    SameInfixPlace(k, p, m, q);
    SameInfixPlace(m, q, k, p);
    var s := k + TEMP_INFIX + p;
    assert k == s[..|k|] && m == s[..|m|];
    assert p == s[|k| + 10..] && q == s[|m| + 10..];
    assert Magnitude(p, 16) == t && Magnitude(q, 16) == u;
  }

  /** The stem of a temporary file has the infix and ends in a digit. */
  lemma TempStem(k: string, t: nat)
    ensures Contains(k + TEMP_INFIX + Print(t, 16), TEMP_INFIX)
    ensures !HasSuffix(k + TEMP_INFIX + Print(t, 16), ATTRS_EXT)
  {
    hide Print, Contains;
    var d := Print(t, 16);
    var s := k + TEMP_INFIX + d;
    PrintedDigits(t, 16);
    assert s[|k|..|k| + 10] == TEMP_INFIX;
    ContainsAt(s, TEMP_INFIX, |k|);
    assert s[|s| - 1] == d[|d| - 1] && d[|d| - 1] in d;
    assert 's' !in DIGITS && ATTRS_EXT[5] == 's';
    assert |s| >= 10 && s[|s| - 6..][5] == s[|s| - 1];
  }

  /** So the stem and the extension can be told apart. */
  lemma StemAndExt(s: string, x: bool, t: string, y: bool)
    requires !HasSuffix(s, ATTRS_EXT) && !HasSuffix(t, ATTRS_EXT)
    requires (if x then s else s + ATTRS_EXT) == (if y then t else t + ATTRS_EXT)
    ensures s == t && x == y
  {
    var a, b := s + ATTRS_EXT, t + ATTRS_EXT;
    assert a[|a| - 6..] == ATTRS_EXT && b[|b| - 6..] == ATTRS_EXT;
    assert a[..|a| - 6] == s && b[..|b| - 6] == t;
  }

  lemma StemKind(p: Path)
    requires !IsInternalPath(p.key)
    ensures !HasSuffix(Stem(p), ATTRS_EXT)
    ensures Contains(Stem(p), TEMP_INFIX) <==> p.Temp? || p.TempSidecar?
  {
    hide Contains, HasSuffix;
    if p.Temp? || p.TempSidecar? {
      TempStem(p.key, p.tag);
    }
  }

  /** Files for different purposes lie at different places: no key that fullPath
      accepts is a sidecar or a temporary file of a blob, and these do not clash with
      each other. */
  lemma RenderInjective(p: Path, q: Path)
    requires !IsInternalPath(p.key) && !IsInternalPath(q.key) && Render(p) == Render(q)
    ensures p == q
  {
    hide Print, Contains, HasSuffix;
    StemKind(p);
    StemKind(q);
    StemAndExt(Stem(p), p.Blob? || p.Temp?, Stem(q), q.Blob? || q.Temp?);
    if p.Temp? || p.TempSidecar? {
      TempNamesDiffer(p.key, p.tag, q.key, q.tag);
    }
  }

  /** Without the checks a key could be another blob's sidecar. */
  lemma UncheckedKeysClash(k: string)
    ensures Render(Blob(k + ATTRS_EXT)) == Render(Sidecar(k)) && IsInternalPath(k + ATTRS_EXT)
  {
    var s := k + ATTRS_EXT;
    assert s[|s| - 6..] == ATTRS_EXT;
  }

  /** What is reserved, in full. */
  lemma ReservedAre(path: string)
    ensures IsInternalPath(path) <==> OccursAt(path, ".attrs", |path| - 6) || exists i :: OccursAt(path, ".gocdktmp.", i)
  {
    assert forall i :: OccursAt(path, ".gocdktmp.", i) ==> 0 <= i <= |path|;
    assert |path| >= 6 ==> path[|path| - 6..|path|] == path[|path| - 6..];
  }

  /** Where the files of a blob lie: the names of temporary ones have the infix and the
      time in hexadecimal, those of sidecars the extension. */
  lemma PathsAre(key: string, tag: nat)
    ensures Render(Blob(key)) == key && Render(Sidecar(key)) == key + ".attrs"
    ensures exists h: string ::
              && IsNumeral(h, 16) && Sum(h, 16) == tag && (h[0] == '0' ==> h == "0")
              && (forall x :: x in h ==> x in "0123456789abcdef")
              && Render(Temp(key, tag)) == key + ".gocdktmp." + h
              && Render(TempSidecar(key, tag)) == key + ".gocdktmp." + h + ".attrs"
  {
    hide Print, Sum;
    PrintIs(tag, 16);
  }
}
