/** Where an upload keeps its manifest and parts, and why no two uploads can touch
    each other's objects (bucket.go:32-53, 158-181). */
module Staging {
  import opened Strings
  import opened Numerals
  import opened PartNames

  const STAGING_INFIX := ".gocdkmpu."
  const MANIFEST_NAME := "manifest.json"

  function StagingPrefix(key: string, id: string): string {
    key + STAGING_INFIX + id + "/"
  }

  function ManifestKey(key: string, id: string): string {
    StagingPrefix(key, id) + MANIFEST_NAME
  }

  function PartKey(key: string, id: string, number: int): string {
    StagingPrefix(key, id) + PartName(number)
  }

  /** hex.EncodeToString of 16 bytes. */
  predicate IsHexId(id: string) {
    |id| == 32 && forall c :: c in id ==> c in DIGITS
  }

  predicate IsDestination(key: string) {
    key != "" && !Contains(key, STAGING_INFIX)
  }

  predicate IsUpload(key: string, id: string) {
    IsDestination(key) && IsHexId(id)
  }

  lemma InfixAt(t: string, i: int)
    requires OccursAt(t, STAGING_INFIX, i)
    ensures t[i] == '.' && t[i + 1] == 'g' && t[i + 2] == 'o' && t[i + 3] == 'c' && t[i + 4] == 'd'
         && t[i + 5] == 'k' && t[i + 6] == 'm' && t[i + 7] == 'p' && t[i + 8] == 'u' && t[i + 9] == '.'
  {
    var x := t[i..i + 10];
    assert x == STAGING_INFIX;
    assert t[i] == x[0] && t[i + 1] == x[1] && t[i + 2] == x[2] && t[i + 3] == x[3] && t[i + 4] == x[4];
    assert t[i + 5] == x[5] && t[i + 6] == x[6] && t[i + 7] == x[7] && t[i + 8] == x[8] && t[i + 9] == x[9];
  }

  /** Two infixes in one text do not overlap, except that the last dot of one may be
      the first dot of the other. */
  lemma InfixOverlap(t: string, i: int, j: int)
    requires OccursAt(t, STAGING_INFIX, i) && OccursAt(t, STAGING_INFIX, j) && i < j < i + 10
    ensures j == i + 9
  {
    InfixAt(t, i);
    InfixAt(t, j);
  }

  lemma StagingParts(key: string, id: string, name: string)
    requires IsHexId(id)
    ensures var t := StagingPrefix(key, id) + name;
            && OccursAt(t, STAGING_INFIX, |key|)
            && |t| == |key| + 43 + |name|
            && t[..|key|] == key
            && t[|key| + 10..|key| + 42] == id
            && t[|key| + 10] in DIGITS
            && t[|key| + 42] == '/'
  {
    var t := StagingPrefix(key, id) + name;
    assert t == key + STAGING_INFIX + id + ("/" + name);
    assert t[|key| + 10] == id[0] && id[0] in id;
  }

  lemma NoInfixBefore(t: string, key: string, i: int)
    requires |key| <= |t| && t[..|key|] == key && !Contains(key, STAGING_INFIX)
    requires OccursAt(t, STAGING_INFIX, i)
    ensures i + 10 > |key|
  {
    if i + 10 <= |key| {
      assert key[i..i + 10] == t[i..i + 10];
      assert OccursAt(key, STAGING_INFIX, i);
    }
  }

  /** A staging prefix begins no object of another upload, whatever its name. */
  lemma UploadsAreApart(key1: string, id1: string, key2: string, id2: string, name: string)
    requires IsUpload(key1, id1) && IsUpload(key2, id2)
    requires HasPrefix(StagingPrefix(key2, id2) + name, StagingPrefix(key1, id1))
    ensures key1 == key2 && id1 == id2
  {
    hide IsHexId, StagingPrefix, OccursAt, Contains;
    var t := StagingPrefix(key2, id2) + name;
    var rest := t[|StagingPrefix(key1, id1)|..];
    assert t == StagingPrefix(key1, id1) + rest;
    StagingParts(key1, id1, rest);
    StagingParts(key2, id2, name);
    NoInfixBefore(t, key1, |key2|);
    NoInfixBefore(t, key2, |key1|);
    NoG();
    if |key1| < |key2| {
      InfixOverlap(t, |key1|, |key2|);
      InfixAt(t, |key2|);
    } else if |key2| < |key1| {
      InfixOverlap(t, |key2|, |key1|);
      InfixAt(t, |key1|);
    }
  }

  lemma NoG()
    ensures 'g' !in DIGITS
  {
  }

  /** No staging object is a destination key, nor does a destination key begin with
      a staging prefix. */
  lemma StagedIsNoDestination(key: string, id: string, name: string)
    ensures Contains(StagingPrefix(key, id) + name, STAGING_INFIX)
  {
    var t := StagingPrefix(key, id) + name;
    assert t[|key|..|key| + 10] == STAGING_INFIX;
    assert OccursAt(t, STAGING_INFIX, |key|);
  }

  lemma DestinationIsNotStaged(dest: string, key: string, id: string)
    requires !Contains(dest, STAGING_INFIX)
    ensures !HasPrefix(dest, StagingPrefix(key, id))
  {
    var p := StagingPrefix(key, id);
    if HasPrefix(dest, p) {
      assert dest == p + dest[|p|..];
      StagedIsNoDestination(key, id, dest[|p|..]);
    }
  }

  /** No key, whatever it is, lies below its own staging prefix. */
  lemma KeyIsNotStaged(key: string, id: string)
    ensures !HasPrefix(key, StagingPrefix(key, id))
  {
    assert |StagingPrefix(key, id)| > |key|;
  }

  lemma PartIsNotManifest(number: int)
    ensures PartName(number) != MANIFEST_NAME
    ensures ParsePartName(MANIFEST_NAME).None?
  {
    hide PartName;
    PartNameChars(number);
    assert MANIFEST_NAME[0] == 'm' && 'm' in MANIFEST_NAME;
    assert 'm' !in DIGITS;
  }

  /** The objects of uploads have names of their own. */
  lemma PartKeysDiffer(key1: string, id1: string, m: int, key2: string, id2: string, n: int)
    requires IsUpload(key1, id1) && IsUpload(key2, id2) && IsInt64(m) && IsInt64(n)
    requires PartKey(key1, id1, m) == PartKey(key2, id2, n)
    ensures key1 == key2 && id1 == id2 && m == n
  {
    hide IsUpload, StagingPrefix, PartName;
    assert HasPrefix(PartKey(key1, id1, m), StagingPrefix(key1, id1));
    UploadsAreApart(key1, id1, key2, id2, PartName(n));
    var p := StagingPrefix(key1, id1);
    assert PartName(m) == PartKey(key1, id1, m)[|p|..] == PartName(n);
    PartNamesDiffer(m, n);
  }

  /** A manifest is found under one upload only, and no part is taken for one.  The
      key and ID asked for may be any strings. */
  lemma ManifestIsNoPart(key1: string, id1: string, key2: string, id2: string, n: int)
    ensures ManifestKey(key1, id1) != PartKey(key2, id2, n)
  {
    hide StagingPrefix, PartName;
    PartNameChars(n);
    var a, b := ManifestKey(key1, id1), PartKey(key2, id2, n);
    assert a[|a| - 1] == 'n';
    var p := PartName(n);
    assert b[|b| - 1] == p[|p| - 1] && p[|p| - 1] in p;
    assert 'n' !in DIGITS;
  }

  lemma SameManifest(key1: string, id1: string, key2: string, id2: string)
    requires ManifestKey(key1, id1) == ManifestKey(key2, id2)
    ensures StagingPrefix(key1, id1) == StagingPrefix(key2, id2)
    ensures key1 == key2 ==> id1 == id2
  {
    hide StagingPrefix;
    var a := ManifestKey(key1, id1);
    assert StagingPrefix(key1, id1) == a[..|a| - 13] == StagingPrefix(key2, id2);
    if key1 == key2 {
      SamePrefix(key1, id1, id2);
    }
  }

  lemma SamePrefix(key: string, id1: string, id2: string)
    requires StagingPrefix(key, id1) == StagingPrefix(key, id2)
    ensures id1 == id2
  {
    var a, b := StagingPrefix(key, id1), StagingPrefix(key, id2);
    assert id1 == a[|key| + 10..|a| - 1];
    assert id2 == b[|key| + 10..|b| - 1];
  }

  /** Different strings can name one and the same manifest: only the key written in
      it tells these two apart. */
  lemma OverlappingNames(key: string, id: string)
    ensures StagingPrefix(key, "gocdkmpu." + id) == StagingPrefix(key + ".gocdkmpu", id)
  {
    assert ".gocdkmpu." + "gocdkmpu." == ".gocdkmpu" + ".gocdkmpu.";
  }
}
