/** The tree that comes of writing blobs: each key is escaped, and its slashes become
    directories.  Every such tree is well named, and holds just the keys written
    (blob/httpblob/webdav.go:273-294, internal/escape/key.go:32-56). */
module WrittenTree {
  import opened Strings
  import opened Escape
  import opened KeyEscape
  import opened Listing
  import opened Pages
  import opened Prefixes
  import opened Reserved
  import opened Tree
  import opened Walk

  /** A key, by the segments between its slashes. */
  function Join(segments: seq<string>): string
    requires segments != []
  {
    if |segments| == 1 then segments[0] else segments[0] + "/" + Join(segments[1..])
  }

  /** A segment that escaping leaves a name of its own: it is not empty, not "." or
      "..", does not splice, and the slash behind it is not escaped. */
  predicate GoodSegment(s: string, last: bool) {
    s != "" && '/' !in s && KeyNoSplice(s) && s != "." && s != ".." && (last || !HasSuffix(s, ".."))
  }

  /** A key beneath the directory at a path whose blob does not look like bookkeeping;
      its directories may. */
  predicate GoodKey(path: string, segments: seq<string>)
    requires segments != []
    decreases |segments|
  {
    var below := ChildPath(path, EscapeKey(segments[0]));
    && GoodSegment(segments[0], |segments| == 1)
    && if |segments| == 1 then !IsInternalPath(below) else GoodKey(below, segments[1..])
  }

  function FindKid(kids: seq<Node>, name: string): (r: Option<Node>)
    ensures r.Some? ==> r.value in kids && r.value.name == name
    ensures r.None? ==> forall k :: k in kids ==> k.name != name
  {
    if kids == [] then None
    else if kids[0].name == name then Some(kids[0])
    else
      assert kids == [kids[0]] + kids[1..];
      FindKid(kids[1..], name)
  }

  /** The entries with k in place of the one of its name. */
  function SetKid(kids: seq<Node>, k: Node): seq<Node> {
    if kids == [] then [k]
    else if kids[0].name == k.name then [k] + kids[1..]
    else [kids[0]] + SetKid(kids[1..], k)
  }

  /** Writes a blob, making the directories on its way; None if a blob is where a
      directory has to be, or the other way around. */
  function Store(n: Node, segments: seq<string>, size: nat): (r: Option<Node>)
    requires n.Dir? && segments != []
    ensures r.Some? ==> r.value.Dir? && r.value.name == n.name
    decreases |segments|
  {
    var name := EscapeKey(segments[0]);
    var kid := FindKid(n.kids, name);
    if |segments| == 1 then
      if kid.Some? && kid.value.Dir? then None
      else Some(Dir(n.name, SetKid(n.kids, File(name, size))))
    else if kid.Some? && kid.value.File? then None
    else
      match Store(if kid.Some? then kid.value else Dir(name, []), segments[1..], size)
      case None => None
      case Some(d) => Some(Dir(n.name, SetKid(n.kids, d)))
  }

  // ---- names ----

  lemma {:induction false} EscapeHasNoSlash(s: string, i: nat)
    requires '/' !in s && i <= |s|
    ensures '/' !in EscapeFrom(s, KeyRule, i)
    decreases |s| - i
  {
    hide Escaped, EscapeRune;
    if i < |s| {
      EscapeHasNoSlash(s, i + 1);
      RuneHasNoSlash(s[i]);
      var piece, rest := EscapePiece(s, KeyRule, i), EscapeFrom(s, KeyRule, i + 1);
      assert s[i] in s && '/' !in piece;
      hide EscapePiece, EscapeFrom;
      assert '/' !in piece + rest;
    }
  }

  lemma RuneHasNoSlash(c: char)
    ensures '/' !in EscapeRune(c)
  {
    hide Numerals.Print;
    Numerals.PrintedDigits(c as int, 16);
    assert '/' !in Numerals.DIGITS;
  }

  /** The name of a good segment is a name, and gives the segment back. */
  lemma SegmentName(s: string, last: bool)
    requires GoodSegment(s, last)
    ensures IsName(EscapeKey(s)) && UnescapeKey(EscapeKey(s)) == s
  {
    hide NoSplice, Unescape, EscapeFrom;
    KeyRoundTrip(s);
    EscapeHasNoSlash(s, 0);
    UnescapeEmpty();
    DotsAsTheyAre(EscapeKey(s));
  }

  lemma DotsAsTheyAre(name: string)
    ensures name == "." || name == ".." ==> UnescapeKey(name) == name
  {
    hide ParseEscape, Unescape;
    if name == "." || name == ".." {
      UnescapePlain(name, "");
      UnescapeEmpty();
      assert name + "" == name;
    }
  }

  /** The path of a directory that keys lie beneath. */
  predicate DirPath(path: string) {
    path == "" || (EscapeKey(UnescapeKey(path)) == path
                   && !HasSuffix(UnescapeKey(path), "/") && !HasSuffix(UnescapeKey(path), ".."))
  }

  lemma ChildOfDirPath(path: string, s: string, last: bool)
    requires DirPath(path) && GoodSegment(s, last)
    ensures var below := ChildPath(path, EscapeKey(s));
            && UnescapeKey(below) == KeyPrefix(path) + s
            && EscapeKey(UnescapeKey(below)) == below
            && (!last ==> DirPath(below) && below != "")
  {
    hide UnescapeKey, EscapeKey, KeyNoSplice, HasSuffix;
    SegmentName(s, last);
    ChildKey(path, EscapeKey(s));
    if path == "" {
      assert "" + s == s;
    } else {
      assert s[0] in s;
      EscapeSplit(UnescapeKey(path), s);
    }
    EndsAlike(KeyPrefix(path), s);
    NoSuffix(s);
  }

  lemma EndsAlike(p: string, s: string)
    requires s != "" && '/' !in s && (p == "" || p[|p| - 1] == '/')
    ensures !HasSuffix(p + s, "/")
    ensures HasSuffix(p + s, "..") ==> HasSuffix(s, "..")
  {
    hide HasSuffix;
    NoSuffix(p + s);
    NoSuffix(s);
    assert s[|s| - 1] in s;
  }

  // ---- what writing keeps ----

  /** Blobs and directories that came of writing good keys. */
  predicate Built(n: Node, path: string)
    decreases n
  {
    n.Dir? ==>
      && (forall i, j :: 0 <= i < j < |n.kids| ==> n.kids[i].name != n.kids[j].name)
      && (forall k :: k in n.kids ==> BuiltName(path, k))
      && (forall k :: k in n.kids ==> Built(k, ChildPath(path, k.name)))
  }

  predicate BuiltName(path: string, k: Node) {
    && GoodName(path, k) && '/' !in UnescapeKey(k.name)
    && (k.File? ==> Visible(path, k))
    && EscapeKey(UnescapeKey(ChildPath(path, k.name))) == ChildPath(path, k.name)
  }

  /** Names that differ escaped differ unescaped. */
  lemma NamesDiffer(path: string, j: Node, k: Node)
    requires BuiltName(path, j) && BuiltName(path, k) && j.name != k.name
    ensures UnescapeKey(j.name) != UnescapeKey(k.name)
  {
    hide UnescapeKey, EscapeKey, IsInternalPath;
    ChildKey(path, j.name);
    ChildKey(path, k.name);
    assert path != "" ==> ChildPath(path, j.name)[|path| + 1..] == j.name;
    assert path != "" ==> ChildPath(path, k.name)[|path| + 1..] == k.name;
  }

  /** Two segments behind the same text, each ending at a slash or at the end. */
  lemma SegmentsSame(p: string, u: string, v: string, y: string, z: string)
    requires '/' !in u && '/' !in v && p + u + y == p + v + z
    requires (y == "" || y[0] == '/') && (z == "" || z[0] == '/')
    ensures u == v
  {
    var a, b := p + u + y, p + v + z;
    assert forall i :: 0 <= i < |u| ==> a[|p| + i] == u[i] && u[i] in u;
    assert forall i :: 0 <= i < |v| ==> b[|p| + i] == v[i] && v[i] in v;
    assert y != "" ==> a[|p| + |u|] == '/';
    assert z != "" ==> b[|p| + |v|] == '/';
    assert |u| == |v|;
    assert u == a[|p|..|p| + |u|] && v == b[|p|..|p| + |v|];
  }

  lemma SegmentsDiffer(p: string, u: string, v: string, y: string, z: string)
    requires '/' !in u && '/' !in v && u != v
    requires (y == "" || y[0] == '/') && (z == "" || z[0] == '/')
    ensures p + u + y != p + v + z
  {
    if p + u + y == p + v + z {
      SegmentsSame(p, u, v, y, z);
    }
  }

  /** Different names have different sort keys. */
  lemma SortKeysDiffer(path: string, a: Node, b: Node)
    requires BuiltName(path, a) && BuiltName(path, b) && a.name != b.name
    ensures SortKey(path, a) != SortKey(path, b)
  {
    hide UnescapeKey, EscapeKey, IsInternalPath, SortKey;
    NamesDiffer(path, a, b);
    KidKey(path, a);
    KidKey(path, b);
    SegmentsDiffer(KeyPrefix(path), UnescapeKey(a.name), UnescapeKey(b.name),
                   if a.Dir? then "/" else "", if b.Dir? then "/" else "");
  }

  predicate DistinctNames(ks: seq<Node>) {
    forall i, j :: 0 <= i < j < |ks| ==> ks[i].name != ks[j].name
  }

  lemma SnocDistinct(ks: seq<Node>, k: Node)
    requires DistinctNames(ks) && forall x :: x in ks ==> x.name != k.name
    ensures DistinctNames(ks + [k])
  {
  }

  lemma OthersBefore(kids: seq<Node>, n: nat)
    requires n < |kids| && DistinctNames(kids)
    ensures forall x :: x in kids[..n] ==> x.name != kids[n].name
  {
  }

  lemma {:induction false} VisibleDiffer(path: string, kids: seq<Node>, n: nat)
    requires n <= |kids| && DistinctNames(kids)
    ensures DistinctNames(VisibleKids(path, kids[..n]))
  {
    hide Visible, DistinctNames;
    if n > 0 {
      VisibleDiffer(path, kids, n - 1);
      VisibleNext(path, kids, n - 1);
      hide VisibleKids;
      OthersBefore(kids, n - 1);
      if Visible(path, kids[n - 1]) {
        SnocDistinct(VisibleKids(path, kids[..n - 1]), kids[n - 1]);
      }
    } else {
      NoNames();
      assert kids[..0] == [] && VisibleKids(path, []) == [];
    }
  }

  lemma NoNames()
    ensures DistinctNames([])
  {
  }

  lemma {:induction false} BuiltIsWellNamed(n: Node, path: string)
    requires Built(n, path)
    ensures WellNamed(n, path)
    decreases n
  {
    hide UnescapeKey, EscapeKey, IsInternalPath, SortKey;
    if n.Dir? {
      forall k | k in n.kids
        ensures GoodName(path, k) && WellNamed(k, ChildPath(path, k.name))
      {
        assert BuiltName(path, k);
        BuiltIsWellNamed(k, ChildPath(path, k.name));
      }
      VisibleDiffer(path, n.kids, |n.kids|);
      assert n.kids[..|n.kids|] == n.kids;
      var vs := VisibleKids(path, n.kids);
      forall i, j | 0 <= i < j < |vs|
        ensures SortKey(path, vs[i]) != SortKey(path, vs[j])
      {
        assert vs[i] in n.kids && vs[j] in n.kids;
        assert DistinctNames(vs);
        SortKeysDiffer(path, vs[i], vs[j]);
      }
    }
  }

  lemma {:induction false} SetKidMembers(kids: seq<Node>, k: Node)
    requires forall i, j :: 0 <= i < j < |kids| ==> kids[i].name != kids[j].name
    ensures var r := SetKid(kids, k);
            && (forall x :: x in r <==> x == k || (x in kids && x.name != k.name))
            && (forall i, j :: 0 <= i < j < |r| ==> r[i].name != r[j].name)
  {
    if kids != [] {
      assert kids == [kids[0]] + kids[1..];
      SetKidMembers(kids[1..], k);
      var r, rest := SetKid(kids, k), SetKid(kids[1..], k);
      if kids[0].name == k.name {
        assert forall x :: x in kids[1..] ==> x.name != k.name;
      } else {
        assert forall j :: 0 <= j < |rest| ==> rest[j] in rest && rest[j].name != kids[0].name;
      }
    }
  }

  lemma {:induction false} StoreBuilt(n: Node, path: string, segments: seq<string>, size: nat)
    requires n.Dir? && segments != [] && Built(n, path) && DirPath(path)
    requires GoodKey(path, segments) && Store(n, segments, size).Some?
    ensures Built(Store(n, segments, size).value, path)
    decreases |segments|
  {
    hide UnescapeKey, EscapeKey, IsInternalPath, GoodSegment, DirPath;
    var name := EscapeKey(segments[0]);
    var below := ChildPath(path, name);
    var kid := FindKid(n.kids, name);
    SegmentName(segments[0], |segments| == 1);
    ChildOfDirPath(path, segments[0], |segments| == 1);
    assert '/' !in segments[0] by { SegmentHasNoSlash(segments[0], |segments| == 1); }
    var k: Node;
    if |segments| == 1 {
      k := File(name, size);
    } else {
      var d := if kid.Some? then kid.value else Dir(name, []);
      StoreBuilt(d, below, segments[1..], size);
      k := Store(d, segments[1..], size).value;
    }
    SetKidMembers(n.kids, k);
    assert BuiltName(path, k);
    hide BuiltName, GoodName, Visible, Store, GoodKey;
  }

  lemma SegmentHasNoSlash(s: string, last: bool)
    requires GoodSegment(s, last)
    ensures '/' !in s
  {
  }

  // ---- what writing changes ----

  /** The key of a blob beneath an entry: the key of the entry, or what follows it
      after a slash. */
  lemma {:induction false} BuiltKey(k: Node, path: string, b: Blob) returns (rest: string)
    requires BuiltName(path, k) && Built(k, ChildPath(path, k.name)) && b in BlobSet(k, ChildPath(path, k.name))
    ensures rest == "" || rest[0] == '/'
    ensures b.key == KeyPrefix(path) + UnescapeKey(k.name) + rest
    decreases k
  {
    hide UnescapeKey, EscapeKey, IsInternalPath, KeyPrefix, SortKey, BlobSet, Built, BuiltName;
    var u, below := UnescapeKey(k.name), ChildPath(path, k.name);
    BuiltNameKey(path, k);
    if k.File? {
      rest := "";
      FileBlobs(k, below, b);
      assert KeyPrefix(path) + u + "" == KeyPrefix(path) + u;
    } else {
      DirBlobs(k, below, b);
      var x :| x in k.kids && b in BlobSet(x, ChildPath(below, x.name));
      BuiltNames(k, below);
      var tail := BuiltKey(x, below, b);
      rest := "/" + (UnescapeKey(x.name) + tail);
      OneLevelDown(KeyPrefix(path), u, UnescapeKey(x.name), tail);
    }
  }

  lemma BuiltNameKey(path: string, k: Node)
    requires BuiltName(path, k)
    ensures UnescapeKey(ChildPath(path, k.name)) == KeyPrefix(path) + UnescapeKey(k.name)
    ensures k.Dir? ==> KeyPrefix(ChildPath(path, k.name)) == KeyPrefix(path) + UnescapeKey(k.name) + "/"
  {
    hide UnescapeKey, EscapeKey, IsInternalPath, SortKey;
    KidKey(path, k);
  }

  lemma OneLevelDown(p: string, u: string, v: string, tail: string)
    ensures p + u + "/" + v + tail == p + u + ("/" + (v + tail))
  {
  }

  lemma BuiltNames(n: Node, path: string)
    requires n.Dir? && Built(n, path)
    ensures forall i, j :: 0 <= i < j < |n.kids| ==> n.kids[i].name != n.kids[j].name
    ensures forall k :: k in n.kids ==> BuiltName(path, k) && Built(k, ChildPath(path, k.name))
  {
    hide BuiltName;
  }

  /** The entry that changes. */
  function StoredKid(n: Node, path: string, segments: seq<string>, size: nat): (k: Node)
    requires n.Dir? && segments != [] && Store(n, segments, size).Some?
    ensures k.name == EscapeKey(segments[0])
    ensures Store(n, segments, size) == Some(Dir(n.name, SetKid(n.kids, k)))
  {
    var name := EscapeKey(segments[0]);
    var kid := FindKid(n.kids, name);
    if |segments| == 1 then File(name, size)
    else Store(if kid.Some? then kid.value else Dir(name, []), segments[1..], size).value
  }

  /** What an entry of another name holds has another key. */
  lemma OtherKid(n: Node, path: string, x: Node, segments: seq<string>, b: Blob)
    requires n.Dir? && Built(n, path) && DirPath(path) && segments != [] && GoodKey(path, segments)
    requires x in n.kids && x.name != EscapeKey(segments[0]) && b in BlobSet(x, ChildPath(path, x.name))
    ensures b.key != KeyPrefix(path) + Join(segments)
  {
    hide UnescapeKey, EscapeKey, IsInternalPath, GoodSegment, DirPath, BlobSet, KeyPrefix, BuiltName;
    var s := segments[0];
    BuiltNames(n, path);
    var rest := BuiltKey(x, path, b);
    var tail := if |segments| == 1 then "" else "/" + Join(segments[1..]);
    JoinSplit(KeyPrefix(path), segments);
    hide Join, Built;
    SegmentHasNoSlash(s, |segments| == 1);
    OtherSegment(path, x, s, |segments| == 1);
    SegmentsDiffer(KeyPrefix(path), UnescapeKey(x.name), s, rest, tail);
  }

  lemma JoinSplit(p: string, segments: seq<string>)
    requires segments != []
    ensures p + Join(segments) == p + segments[0] + if |segments| == 1 then "" else "/" + Join(segments[1..])
  {
    if |segments| == 1 {
      assert p + segments[0] == p + segments[0] + "";
    } else {
      TextSplit(p, segments[0], Join(segments[1..]));
    }
  }

  lemma TextSplit(p: string, x: string, y: string)
    ensures p + (x + "/" + y) == p + x + ("/" + y)
  {
  }

  lemma OtherSegment(path: string, x: Node, s: string, last: bool)
    requires BuiltName(path, x) && DirPath(path) && GoodSegment(s, last) && x.name != EscapeKey(s)
    ensures UnescapeKey(x.name) != s && '/' !in UnescapeKey(x.name)
  {
    hide UnescapeKey, EscapeKey, IsInternalPath, GoodSegment, DirPath;
    ChildOfDirPath(path, s, last);
    ChildKey(path, x.name);
    assert path != "" ==> ChildPath(path, x.name)[|path| + 1..] == x.name;
    assert path != "" ==> ChildPath(path, EscapeKey(s))[|path| + 1..] == EscapeKey(s);
  }

  /** What the entry that changes holds, before and after. */
  lemma {:induction false} KidChange(n: Node, path: string, segments: seq<string>, size: nat, b: Blob)
    requires n.Dir? && segments != [] && Built(n, path) && DirPath(path)
    requires GoodKey(path, segments) && Store(n, segments, size).Some?
    ensures var key, below := KeyPrefix(path) + Join(segments), ChildPath(path, EscapeKey(segments[0]));
            b in BlobSet(StoredKid(n, path, segments, size), below)
            <==> || b == Blob(key, size)
                 || (b.key != key && exists x :: x in n.kids && x.name == EscapeKey(segments[0]) && b in BlobSet(x, below))
    decreases |segments|, 0
  {
    hide UnescapeKey, EscapeKey, IsInternalPath, GoodSegment, DirPath, BlobSet, KeyPrefix, BuiltName;
    var name, s := EscapeKey(segments[0]), segments[0];
    var below, key := ChildPath(path, name), KeyPrefix(path) + Join(segments);
    var kid := FindKid(n.kids, name);
    ChildOfDirPath(path, s, |segments| == 1);
    BuiltNames(n, path);
    OnlyOne(n.kids, name);
    if |segments| == 1 {
      FileBlobs(File(name, size), below, b);
      if kid.Some? {
        FileBlobs(kid.value, below, b);
      }
    } else {
      var d := if kid.Some? then kid.value else Dir(name, []);
      StoreBlobs(d, below, segments[1..], size, b);
      DirBlobs(Dir(name, []), below, b);
      assert KeyPrefix(below) + Join(segments[1..]) == key by {
        BelowKey(path, below, s, Join(segments[1..]));
      }
    }
  }

  lemma BelowKey(path: string, below: string, s: string, rest: string)
    requires below != "" && UnescapeKey(below) == KeyPrefix(path) + s
    ensures KeyPrefix(below) + rest == KeyPrefix(path) + (s + "/" + rest)
  {
    hide UnescapeKey;
  }

  lemma OnlyOne(kids: seq<Node>, name: string)
    requires forall i, j :: 0 <= i < j < |kids| ==> kids[i].name != kids[j].name
    ensures forall x :: x in kids && x.name == name ==> FindKid(kids, name) == Some(x)
  {
    hide FindKid;
  }

  /** Writing puts the blob at its key, in place of the one that was there, and
      leaves all others. */
  lemma {:induction false} StoreBlobs(n: Node, path: string, segments: seq<string>, size: nat, b: Blob)
    requires n.Dir? && segments != [] && Built(n, path) && DirPath(path)
    requires GoodKey(path, segments) && Store(n, segments, size).Some?
    ensures var key := KeyPrefix(path) + Join(segments);
            b in BlobSet(Store(n, segments, size).value, path)
            <==> b == Blob(key, size) || (b in BlobSet(n, path) && b.key != key)
    decreases |segments|, 1
  {
    hide UnescapeKey, EscapeKey, IsInternalPath, GoodSegment, DirPath, BlobSet, KeyPrefix, Built, BuiltName;
    var name, s := EscapeKey(segments[0]), segments[0];
    var below, key := ChildPath(path, name), KeyPrefix(path) + Join(segments);
    ChildOfDirPath(path, s, |segments| == 1);
    var k := StoredKid(n, path, segments, size);
    KidChange(n, path, segments, size, b);
    var t := Dir(n.name, SetKid(n.kids, k));
    BuiltNames(n, path);
    SetKidMembers(n.kids, k);
    DirBlobs(n, path, b);
    DirBlobs(t, path, b);
    forall x | x in n.kids && x.name != name && b in BlobSet(x, ChildPath(path, x.name))
      ensures b.key != key
    {
      OtherKid(n, path, x, segments, b);
    }
  }

  // ---- buckets ----

  /** A blob written: the segments of its key, and its size. */
  datatype Put = Put(segments: seq<string>, size: nat)

  predicate GoodPuts(puts: seq<Put>) {
    forall i :: 0 <= i < |puts| ==> puts[i].segments != [] && GoodKey("", puts[i].segments)
  }

  /** The tree after the writes; None if a write was refused. */
  function BucketOf(puts: seq<Put>): (r: Option<Node>)
    requires GoodPuts(puts)
    ensures r.Some? ==> r.value.Dir?
  {
    if puts == [] then Some(Dir("", []))
    else
      var last := puts[|puts| - 1];
      match BucketOf(puts[..|puts| - 1])
      case None => None
      case Some(n) => Store(n, last.segments, last.size)
  }

  /** The blobs that should then be there: the last of each key. */
  function Contents(puts: seq<Put>): set<Blob>
    requires GoodPuts(puts)
  {
    if puts == [] then {}
    else
      var last := puts[|puts| - 1];
      var key := Join(last.segments);
      (set b | b in Contents(puts[..|puts| - 1]) && b.key != key) + {Blob(key, last.size)}
  }

  /** Every bucket filled by writing good keys is one that the listing is proved for,
      and holds exactly the blobs written. */
  lemma {:induction false} WrittenBucket(puts: seq<Put>, b: Blob)
    requires GoodPuts(puts) && BucketOf(puts).Some?
    ensures WellNamed(BucketOf(puts).value, "")
    ensures b in BlobSet(BucketOf(puts).value, "") <==> b in Contents(puts)
  {
    BuiltBucket(puts, b);
    BuiltIsWellNamed(BucketOf(puts).value, "");
  }

  lemma {:induction false} BuiltBucket(puts: seq<Put>, b: Blob)
    requires GoodPuts(puts) && BucketOf(puts).Some?
    ensures Built(BucketOf(puts).value, "")
    ensures b in BlobSet(BucketOf(puts).value, "") <==> b in Contents(puts)
  {
    hide Built, GoodKey, Store, BlobSet;
    if puts == [] {
      EmptyBucket(b);
    } else {
      var front, last := puts[..|puts| - 1], puts[|puts| - 1];
      BuiltBucket(front, b);
      StoreBuilt(BucketOf(front).value, "", last.segments, last.size);
      StoreBlobs(BucketOf(front).value, "", last.segments, last.size, b);
      assert KeyPrefix("") + Join(last.segments) == Join(last.segments);
    }
  }

  lemma EmptyBucket(b: Blob)
    ensures Built(Dir("", []), "") && b !in BlobSet(Dir("", []), "")
  {
    DirBlobs(Dir("", []), "", b);
  }

  /** So a client that writes and then lists sees its keys: every page of the walk is
      the page cut from the keys written, in their order, folded and filtered, but for
      those in directories taken for bookkeeping below the start directory. */
  lemma ListedAsWritten(puts: seq<Put>, disk: Disk, o: Options, all: seq<Blob>)
    requires GoodPuts(puts) && BucketOf(puts) == Some(disk.root) && FileSystem(disk)
    requires o.pageSize >= 1 && PrefixIsRight(o.prefix)
    requires Ascending(all) && forall b :: b in all <==> b in Contents(puts) && Shown(StartPath(o.prefix), b.key)
    ensures IsPage(o.prefix, o.delimiter, o.pageToken, o.pageSize, all, ToPage(ListPage(disk, o).acc))
  {
    hide IsPage, BucketOf, Contents, WellNamed, BlobSet, PrefixIsRight, StartPath, Ascending, IdealPage, ToPage, ListPage,
         FileSystemTree, Shown;
    WrittenBucket(puts, Blob("", 0));
    forall b
      ensures b in all <==> b in BlobSet(disk.root, "") && Shown(StartPath(o.prefix), b.key)
    {
      WrittenBucket(puts, b);
    }
    PageIsRight(disk, o, all);
    IdealPageIsPage(o, all);
  }

  // ---- and other keys ----

  /** A key below a directory whose name ends in ".attrs" is accepted by writes, since
      its own path is not reserved.  A listing of the bucket does not show it... */
  lemma InternalDirectoryHidesKeys()
    ensures var root := Dir("", [Dir("d.attrs", [File("y", 1)])]);
            && WellNamed(root, "") && !IsInternalPath("d.attrs/y") && Blob("d.attrs/y", 1) in BlobSet(root, "")
            && ToPage(ListPage(Disk(root, []), Options("", "", "", 10)).acc) == Page([], "")
  {
    hide UnescapeKey, EscapeKey, BlobSet, IsInternalPath, Children, ReadDir, VisibleKids, DistinctSortKeys;
    var y, path := File("y", 1), "d.attrs/y";
    var d := Dir("d.attrs", [y]);
    var root := Dir("", [d]);
    var disk := Disk(root, []);
    InternalTree(d);
    InternalBlob(d);
    NoChildren(d);
    ReadRoot(disk);
    assert StartPath("") == "";
    var o := Options("", "", "", 10);
    assert Visit(o, root, "", Walked(EMPTY, 0)) == VisitKids(o, root, [], "", Walked(EMPTY, 1));
    assert ListPage(disk, o) == Walked(EMPTY, 1);
  }

  /** ...but one that starts in the directory does. */
  lemma InternalDirectoryListsItself()
    ensures var root := Dir("", [Dir("d.attrs", [File("y", 1)])]);
            ToPage(ListPage(Disk(root, []), Options("d.attrs/", "", "", 10)).acc)
            == Page([Object("d.attrs/y", false, 1)], "")
  {
    hide UnescapeKey, EscapeKey, IsInternalPath, Children, ReadDir, VisibleKids, StartPath;
    var y := File("y", 1);
    var d := Dir("d.attrs", [y]);
    var disk := Disk(Dir("", [d]), []);
    var o := Options("d.attrs/", "", "", 10);
    InternalStart();
    ReadRoot(disk);
    ReadDirOfChild(disk, "", "d.attrs");
    assert ReadDir(disk, "d.attrs") == Some(d);
    InternalNames("d.attrs", "d.attrs/y");
    ReadsPlain("d.attrs/y");
    assert "d.attrs" + "/" + "y" == "d.attrs/y";
    OneChild("d.attrs", y);
    var w := Walked(EMPTY, 1);
    assert Visit(o, d, "d.attrs", Walked(EMPTY, 0)) == VisitKids(o, d, [y], "d.attrs", w);
    assert VisitKids(o, d, [y], "d.attrs", w) == VisitKids(o, d, [y][1..], "d.attrs", VisitKid(o, y, "d.attrs", w));
    assert "d.attrs/y"[..8] == "d.attrs/";
  }

  lemma InternalStart()
    ensures StartPath("d.attrs/") == "d.attrs"
  {
    hide EscapeKey;
    var x := "d.attrs/";
    LastSlashIs(x, 7);
    assert x[..7] == "d.attrs";
    InternalEscape();
  }

  lemma InternalTree(d: Node)
    requires d == Dir("d.attrs", [File("y", 1)])
    ensures WellNamed(Dir("", [d]), "")
  {
    hide UnescapeKey, EscapeKey, IsInternalPath, DistinctSortKeys, VisibleKids;
    var y := File("y", 1);
    ReadsPlain("d.attrs");
    ReadsPlain("y");
    InternalEscape();
    hide KeyRule;
    OneSortKey("", d);
    OneSortKey("d.attrs", y);
    assert GoodName("d.attrs", y) && GoodName("", d);
    assert WellNamed(d, "d.attrs");
  }

  lemma InternalEscape()
    ensures EscapeKey("d.attrs") == "d.attrs"
  {
    hide EscapeKey;
    NothingToEscape("d.attrs");
  }

  lemma InternalBlob(d: Node)
    requires d == Dir("d.attrs", [File("y", 1)])
    ensures IsInternalPath("d.attrs") && !IsInternalPath("d.attrs/y") && Blob("d.attrs/y", 1) in BlobSet(Dir("", [d]), "")
  {
    hide UnescapeKey, BlobSet, IsInternalPath;
    var y, path := File("y", 1), "d.attrs/y";
    var root := Dir("", [d]);
    var b := Blob(path, 1);
    InternalNames("d.attrs", path);
    ReadsPlain(path);
    assert "d.attrs" + "/" + "y" == path;
    assert ChildPath("d.attrs", "y") == path && ChildPath("", "d.attrs") == "d.attrs";
    FileBlobs(y, path, b);
    DirBlobs(d, "d.attrs", b);
    DirBlobs(root, "", b);
    assert y in d.kids && d in root.kids;
  }

  lemma InternalNames(dir: string, path: string)
    requires dir == "d.attrs" && path == "d.attrs/y"
    ensures IsInternalPath(dir) && !IsInternalPath(path)
  {
    assert dir[1..] == ATTRS_EXT;
    assert path[3..][0] == 't' && ATTRS_EXT[0] == '.';
  }

  lemma NoChildren(d: Node)
    requires IsInternalPath(d.name)
    ensures Children("", [d]) == []
  {
    hide IsInternalPath;
    var front := [d][..0];
    assert front == [] && [d][0] == d;
    assert VisibleKids("", front) == [];
    assert VisibleKids("", [d]) == [] + [];
  }
}
