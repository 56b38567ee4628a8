/** The remote directory tree of a bucket, and its blobs in the order in which a
    depth-first walk finds them (webdav.go:332-395, list.go:113-186). */
module Tree {
  import opened Strings
  import opened Escape
  import opened KeyEscape
  import opened Listing
  import opened Reserved

  /** Names are as they stand on the wire, that is, escaped.  The order of kids is
      the server's. */
  datatype Node = File(name: string, size: nat) | Dir(name: string, kids: seq<Node>)

  function ChildPath(dir: string, name: string): string {
    if dir == "" then name else dir + "/" + name
  }

  /** A directory sorts as though its key ended in "/". */
  function SortKey(dir: string, k: Node): string {
    UnescapeKey(ChildPath(dir, k.name)) + if k.Dir? then "/" else ""
  }

  /** What the key of everything in a directory begins with. */
  function KeyPrefix(dir: string): string {
    if dir == "" then "" else UnescapeKey(dir) + "/"
  }

  predicate Visible(dir: string, k: Node) {
    !IsInternalPath(ChildPath(dir, k.name))
  }

  // ---- one level ----

  /** The entries that are not bookkeeping, in the server's order. */
  function VisibleKids(dir: string, kids: seq<Node>): (r: seq<Node>)
    ensures forall k :: k in r <==> k in kids && Visible(dir, k)
  {
    if kids == [] then []
    else
      var k := kids[|kids| - 1];
      assert kids == kids[..|kids| - 1] + [k];
      VisibleKids(dir, kids[..|kids| - 1]) + if Visible(dir, k) then [k] else []
  }

  lemma VisibleNext(dir: string, kids: seq<Node>, i: nat)
    requires i < |kids|
    ensures var front := VisibleKids(dir, kids[..i]);
            VisibleKids(dir, kids[..i + 1]) == if Visible(dir, kids[i]) then front + [kids[i]] else front
  {
    hide Visible;
    assert kids[..i + 1][..i] == kids[..i];
    assert VisibleKids(dir, kids[..i]) + [] == VisibleKids(dir, kids[..i]);
  }

  function Insert(dir: string, k: Node, sorted: seq<Node>): (r: seq<Node>)
    ensures forall x :: x in r <==> x == k || x in sorted
  {
    if sorted == [] || Less(SortKey(dir, k), SortKey(dir, sorted[0])) then [k] + sorted
    else
      assert sorted == [sorted[0]] + sorted[1..];
      [sorted[0]] + Insert(dir, k, sorted[1..])
  }

  /** sort.Slice by sortKey. */
  function Sort(dir: string, kids: seq<Node>): (r: seq<Node>)
    ensures forall k :: k in r <==> k in kids
  {
    if kids == [] then []
    else
      assert kids == kids[..|kids| - 1] + [kids[|kids| - 1]];
      Insert(dir, kids[|kids| - 1], Sort(dir, kids[..|kids| - 1]))
  }

  function Children(dir: string, kids: seq<Node>): (r: seq<Node>)
    ensures forall k :: k in r <==> k in kids && Visible(dir, k)
  {
    Sort(dir, VisibleKids(dir, kids))
  }

  predicate DistinctSortKeys(dir: string, ks: seq<Node>) {
    forall i, j :: 0 <= i < j < |ks| ==> SortKey(dir, ks[i]) != SortKey(dir, ks[j])
  }

  predicate SortedByKey(dir: string, ks: seq<Node>) {
    forall i, j :: 0 <= i < j < |ks| ==> Less(SortKey(dir, ks[i]), SortKey(dir, ks[j]))
  }

  lemma {:induction false} InsertSorted(dir: string, k: Node, sorted: seq<Node>)
    requires SortedByKey(dir, sorted)
    requires forall x :: x in sorted ==> SortKey(dir, x) != SortKey(dir, k)
    ensures SortedByKey(dir, Insert(dir, k, sorted))
  {
    hide Less, SortKey;
    var r := Insert(dir, k, sorted);
    if sorted != [] && !Less(SortKey(dir, k), SortKey(dir, sorted[0])) {
      LessTotal(SortKey(dir, k), SortKey(dir, sorted[0]));
      assert sorted[0] in sorted;
      InsertSorted(dir, k, sorted[1..]);
      forall i, j | 0 <= i < j < |r|
        ensures Less(SortKey(dir, r[i]), SortKey(dir, r[j]))
      {
        if i == 0 {
          assert r[j] in Insert(dir, k, sorted[1..]);
        }
      }
    } else {
      forall i, j | 0 <= i < j < |r|
        ensures Less(SortKey(dir, r[i]), SortKey(dir, r[j]))
      {
        if i == 0 && j > 1 {
          LessTransitive(SortKey(dir, k), SortKey(dir, sorted[0]), SortKey(dir, sorted[j - 1]));
        }
      }
    }
  }

  lemma {:induction false} SortSorted(dir: string, ks: seq<Node>)
    requires DistinctSortKeys(dir, ks)
    ensures SortedByKey(dir, Sort(dir, ks))
    decreases |ks|
  {
    hide SortKey, Insert, Less;
    if ks != [] {
      var front := ks[..|ks| - 1];
      SortSorted(dir, front);
      forall x | x in Sort(dir, front)
        ensures SortKey(dir, x) != SortKey(dir, ks[|ks| - 1])
      {
        var i :| 0 <= i < |front| && front[i] == x;
      }
      InsertSorted(dir, ks[|ks| - 1], Sort(dir, front));
    }
  }

  // ---- the tree ----

  /** What a bucket's tree has to look like for a listing to make sense: names are
      names; siblings differ, on the wire and as keys; no visible name hides a
      slash; and directories are named as KeyEscape names them.  A directory may be
      taken for bookkeeping. */
  predicate WellNamed(n: Node, path: string)
    decreases n
  {
    n.Dir? ==>
      && DistinctSortKeys(path, VisibleKids(path, n.kids))
      && (forall i, j :: 0 <= i < j < |n.kids| ==> n.kids[i].name != n.kids[j].name)
      && (forall k :: k in n.kids ==> GoodName(path, k))
      && (forall k :: k in n.kids ==> WellNamed(k, ChildPath(path, k.name)))
  }

  predicate IsName(name: string) {
    name != "" && name != "." && name != ".." && '/' !in name
  }

  predicate GoodName(path: string, k: Node) {
    && IsName(k.name)
    && (Visible(path, k) || k.Dir? ==> '/' !in UnescapeKey(k.name))
    && (k.Dir? ==> EscapeKey(UnescapeKey(ChildPath(path, k.name))) == ChildPath(path, k.name))
  }

  /** The blobs of a directory, depth first, each level in the order of Sort. */
  function Walk(n: Node, path: string): seq<Blob>
    requires n.Dir?
    decreases n, 1
  {
    ChildrenBelow(n, path);
    WalkKids(n, Children(path, n.kids), path)
  }

  /** Parts of n, for termination. */
  ghost predicate Below(ks: seq<Node>, n: Node) {
    forall i :: 0 <= i < |ks| ==> ks[i] < n
  }

  lemma ChildrenBelow(n: Node, path: string)
    requires n.Dir?
    ensures Below(Children(path, n.kids), n)
  {
    var ks := Children(path, n.kids);
    forall i | 0 <= i < |ks|
      ensures ks[i] < n
    {
      assert ks[i] in ks && ks[i] in n.kids;
    }
  }

  function WalkKids(n: Node, ks: seq<Node>, path: string): seq<Blob>
    requires Below(ks, n)
    decreases n, 0, |ks|
  {
    if ks == [] then []
    else
      WalkKid(ks[0], path) + WalkKids(n, ks[1..], path)
  }

  function WalkKid(k: Node, path: string): seq<Blob>
    decreases k, 2
  {
    match k
    case File(name, size) => [Blob(UnescapeKey(ChildPath(path, name)), size)]
    case Dir(name, _) => Walk(k, ChildPath(path, name))
  }

  /** The blobs of a directory as a set, whatever the order: what the bucket holds. */
  function BlobSet(n: Node, path: string): set<Blob>
    decreases n, 1
  {
    match n
    case File(_, size) => if IsInternalPath(path) then {} else {Blob(UnescapeKey(path), size)}
    case Dir(_, kids) => BlobSetOf(n, kids, path)
  }

  function BlobSetOf(n: Node, kids: seq<Node>, path: string): set<Blob>
    requires Below(kids, n)
    decreases n, 0, |kids|
  {
    if kids == [] then {}
    else
      BlobSet(kids[0], ChildPath(path, kids[0].name)) + BlobSetOf(n, kids[1..], path)
  }

  // ---- members ----

  lemma {:induction false} BlobSetMember(n: Node, kids: seq<Node>, path: string, b: Blob)
    requires Below(kids, n)
    ensures b in BlobSetOf(n, kids, path)
       <==> exists k :: k in kids && b in BlobSet(k, ChildPath(path, k.name))
    decreases |kids|
  {
    hide BlobSet;
    if kids != [] {
      assert kids[0] in kids && kids == [kids[0]] + kids[1..];
      BlobSetMember(n, kids[1..], path, b);
    }
  }

  lemma {:induction false} WalkMember(n: Node, ks: seq<Node>, path: string, b: Blob)
    requires Below(ks, n)
    ensures b in WalkKids(n, ks, path) <==> exists k :: k in ks && b in WalkKid(k, path)
    decreases |ks|
  {
    hide WalkKid;
    if ks != [] {
      assert ks[0] in ks && ks == [ks[0]] + ks[1..];
      WalkMember(n, ks[1..], path, b);
    }
  }

  // ---- where keys begin, and their order ----

  lemma ChildKey(path: string, name: string)
    ensures UnescapeKey(ChildPath(path, name)) == KeyPrefix(path) + UnescapeKey(name)
  {
    hide UnescapeKey;
    if path == "" {
      assert "" + UnescapeKey(name) == UnescapeKey(name);
    } else {
      UnescapeSplit(path, name);
    }
  }

  lemma {:induction false} UnescapeNonEmpty(s: string)
    requires s != ""
    ensures UnescapeKey(s) != ""
  {
    hide ParseEscape;
  }

  /** The key of a kid is the key of the directory, a slash, and a name with no
      slash in it. */
  lemma KidKey(path: string, k: Node)
    requires GoodName(path, k) && (Visible(path, k) || k.Dir?)
    ensures var u := UnescapeKey(k.name);
            && u != "" && '/' !in u
            && UnescapeKey(ChildPath(path, k.name)) == KeyPrefix(path) + u
            && SortKey(path, k) == KeyPrefix(path) + u + (if k.Dir? then "/" else "")
            && (k.Dir? ==> KeyPrefix(ChildPath(path, k.name)) == SortKey(path, k))
  {
    hide UnescapeKey, EscapeKey, IsInternalPath;
    ChildKey(path, k.name);
    UnescapeNonEmpty(k.name);
    if path != "" {
      assert ChildPath(path, k.name)[|path|] == '/';
    }
    if k.File? {
      assert KeyPrefix(path) + UnescapeKey(k.name) + "" == KeyPrefix(path) + UnescapeKey(k.name);
    }
  }

  // ---- the walk finds exactly the blobs of the bucket that are shown ----

  /** No directory below the one at the path, on the way to the key, is taken for
      bookkeeping. */
  predicate Shown(path: string, key: string) {
    forall i :: |KeyPrefix(path)| <= i < |key| && key[i] == '/' ==> !IsInternalPath(EscapeKey(key[..i]))
  }

  lemma DirBlobs(n: Node, path: string, b: Blob)
    requires n.Dir?
    ensures b in BlobSet(n, path) <==> exists k :: k in n.kids && b in BlobSet(k, ChildPath(path, k.name))
  {
    hide BlobSet;
    AllBelow(n);
    BlobSetMember(n, n.kids, path, b);
    BlobSetOfDir(n, path);
  }

  lemma AllBelow(n: Node)
    requires n.Dir?
    ensures Below(n.kids, n)
  {
  }

  lemma BlobSetOfDir(n: Node, path: string)
    requires n.Dir?
    ensures Below(n.kids, n) && BlobSet(n, path) == BlobSetOf(n, n.kids, path)
  {
  }

  lemma FileBlobs(k: Node, path: string, b: Blob)
    requires k.File?
    ensures b in BlobSet(k, path) <==> !IsInternalPath(path) && b == Blob(UnescapeKey(path), k.size)
  {
  }

  /** Every key beneath a directory begins with its key and a slash. */
  lemma {:induction false} SetBeneath(n: Node, path: string, b: Blob)
    requires n.Dir? && b in BlobSet(n, path)
    ensures HasPrefix(b.key, KeyPrefix(path))
    decreases n
  {
    hide UnescapeKey, IsInternalPath, BlobSet;
    DirBlobs(n, path, b);
    var k :| k in n.kids && b in BlobSet(k, ChildPath(path, k.name));
    ChildKey(path, k.name);
    if k.Dir? {
      AllBelow(n);
      SetBeneath(k, ChildPath(path, k.name), b);
    } else {
      FileBlobs(k, ChildPath(path, k.name), b);
    }
  }

  /** Text on paths: the first slash behind the directory's key. */
  lemma FirstSlash(p: string, u: string, key: string, i: nat)
    requires '/' !in u && HasPrefix(key, p + u + "/") && |p| <= i < |key| && key[i] == '/'
    ensures i >= |p| + |u| && key[..|p| + |u|] == p + u
  {
    var t := p + u + "/";
    assert key[..|t|] == t;
    assert forall j :: |p| <= j < |p| + |u| ==> t[j] == u[j - |p|] && u[j - |p|] in u;
  }

  /** What a directory among the entries shows. */
  lemma ShownBelow(path: string, k: Node, b: Blob)
    requires k.Dir? && GoodName(path, k) && b in BlobSet(k, ChildPath(path, k.name))
    ensures Shown(path, b.key) <==> Visible(path, k) && Shown(ChildPath(path, k.name), b.key)
  {
    hide UnescapeKey, EscapeKey, IsInternalPath, BlobSet, SortKey;
    KidKey(path, k);
    SetBeneath(k, ChildPath(path, k.name), b);
    var p, u, key := KeyPrefix(path), UnescapeKey(k.name), b.key;
    var at := |p| + |u|;
    var t := p + u + "/";
    assert key[..|t|] == t && t[at] == '/';
    FirstSlash(p, u, key, at);
    forall i | |p| <= i < |key| && key[i] == '/'
      ensures i >= at
    {
      FirstSlash(p, u, key, i);
    }
    assert !IsInternalPath(EscapeKey(key[..at])) <==> Visible(path, k);
  }

  lemma KidShown(path: string, k: Node, b: Blob)
    requires GoodName(path, k) && k.File? && b in BlobSet(k, ChildPath(path, k.name))
    ensures Visible(path, k) && Shown(path, b.key)
    ensures b == Blob(UnescapeKey(ChildPath(path, k.name)), k.size)
  {
    hide UnescapeKey, EscapeKey, IsInternalPath, BlobSet;
    FileBlobs(k, ChildPath(path, k.name), b);
    KidKey(path, k);
    var p, u := KeyPrefix(path), UnescapeKey(k.name);
    assert forall i :: |p| <= i < |b.key| ==> b.key[i] == u[i - |p|] && u[i - |p|] in u;
  }

  lemma {:induction false} WalkFindsAll(n: Node, path: string, b: Blob)
    requires n.Dir? && WellNamed(n, path)
    ensures b in Walk(n, path) <==> b in BlobSet(n, path) && Shown(path, b.key)
    decreases n
  {
    hide IsInternalPath, UnescapeKey, EscapeKey, DistinctSortKeys, BlobSet, Shown;
    var ks := Children(path, n.kids);
    ChildrenBelow(n, path);
    WalkMember(n, ks, path, b);
    DirBlobs(n, path, b);
    forall k | k in n.kids
      ensures Visible(path, k) && b in WalkKid(k, path) <==> b in BlobSet(k, ChildPath(path, k.name)) && Shown(path, b.key)
    {
      var dir := ChildPath(path, k.name);
      assert GoodName(path, k);
      if k.Dir? {
        WalkFindsAll(k, dir, b);
        if b in BlobSet(k, dir) {
          ShownBelow(path, k, b);
        }
      } else {
        FileBlobs(k, dir, b);
        if b in BlobSet(k, dir) {
          KidShown(path, k, b);
        }
      }
    }
  }

  /** Every key beneath a directory begins with its key and a slash; a file's key
      is its sort key. */
  lemma {:induction false} KidBeneath(k: Node, path: string, b: Blob)
    requires GoodName(path, k) && Visible(path, k) && WellNamed(k, ChildPath(path, k.name))
    requires b in WalkKid(k, path)
    ensures HasPrefix(b.key, SortKey(path, k)) && b.key != ""
    ensures k.File? ==> b.key == SortKey(path, k)
    ensures k.Dir? ==> |b.key| > |SortKey(path, k)|
    decreases k
  {
    hide UnescapeKey, EscapeKey, IsInternalPath, WellNamed, SortKey;
    KidKey(path, k);
    if k.Dir? {
      var dir := ChildPath(path, k.name);
      WalkKidsBeneath(k, dir, b);
    } else {
      assert SortKey(path, k) == UnescapeKey(ChildPath(path, k.name)) by {
        FileSortKey(path, k);
      }
    }
  }

  lemma FileSortKey(path: string, k: Node)
    requires k.File?
    ensures SortKey(path, k) == UnescapeKey(ChildPath(path, k.name))
  {
    hide UnescapeKey;
  }

  /** A blob of the walk is in the walk of some entry. */
  lemma KidOfBlob(n: Node, dir: string, b: Blob) returns (k: Node)
    requires n.Dir? && WellNamed(n, dir) && b in Walk(n, dir)
    ensures k < n && k in n.kids && Visible(dir, k) && b in WalkKid(k, dir)
    ensures GoodName(dir, k) && WellNamed(k, ChildPath(dir, k.name))
  {
    hide UnescapeKey, EscapeKey, IsInternalPath, WalkKid, SortKey, DistinctSortKeys, GoodName;
    var ks := Children(dir, n.kids);
    ChildrenBelow(n, dir);
    WalkMember(n, ks, dir, b);
    k :| k in ks && b in WalkKid(k, dir);
  }

  lemma {:induction false} WalkKidsBeneath(n: Node, dir: string, b: Blob)
    requires n.Dir? && WellNamed(n, dir) && b in Walk(n, dir)
    ensures HasPrefix(b.key, KeyPrefix(dir)) && |b.key| > |KeyPrefix(dir)|
    decreases n, 0
  {
    hide UnescapeKey, EscapeKey, IsInternalPath, KeyPrefix, WalkKid, SortKey, WellNamed, GoodName, Walk, HasPrefix;
    var k := KidOfBlob(n, dir, b);
    KidKey(dir, k);
    KidBeneath(k, dir, b);
    PrefixOfKidKey(KeyPrefix(dir), UnescapeKey(k.name) + if k.Dir? then "/" else "", SortKey(dir, k), b.key);
  }

  lemma PrefixOfKidKey(p: string, u: string, s: string, key: string)
    requires s == p + u && u != "" && HasPrefix(key, s)
    ensures HasPrefix(key, p) && |key| > |p|
  {
    assert s[..|p|] == p;
    assert key[..|s|][..|p|] == p;
  }

  /** Sort keys of siblings in order put everything below them in order: no sort
      key but a file's can begin another one. */
  lemma BlocksInOrder(path: string, j: Node, k: Node, a: Blob, b: Blob)
    requires GoodName(path, j) && Visible(path, j) && WellNamed(j, ChildPath(path, j.name))
    requires GoodName(path, k) && Visible(path, k) && WellNamed(k, ChildPath(path, k.name))
    requires Less(SortKey(path, j), SortKey(path, k))
    requires a in WalkKid(j, path) && b in WalkKid(k, path)
    ensures Less(a.key, b.key)
  {
    hide UnescapeKey, EscapeKey, IsInternalPath, WellNamed, SortKey, KeyPrefix, WalkKid, Less;
    KidBeneath(j, path, a);
    KidBeneath(k, path, b);
    var s, t := SortKey(path, j), SortKey(path, k);
    if HasPrefix(t, s) {
      KidKey(path, j);
      KidKey(path, k);
      LessIrreflexive(s);
      if j.Dir? {
        DirBeginsSortKey(KeyPrefix(path), UnescapeKey(j.name), UnescapeKey(k.name), if k.Dir? then "/" else "");
      }
      PrefixAtMost(t, b.key);
      LessAtMost(s, t, b.key);
    } else {
      LessExtends(s, t, a.key, b.key);
    }
  }

  /** A directory's sort key begins no other sort key at its level. */
  lemma DirBeginsSortKey(p: string, u: string, v: string, y: string)
    requires '/' !in u && '/' !in v && (y == "" || y == "/")
    requires HasPrefix(p + v + y, p + u + "/")
    ensures p + v + y == p + u + "/"
  {
    var s, t := p + u + "/", p + v + y;
    assert s[|p| + |u|] == '/' && t[|p| + |u|] == s[|p| + |u|];
    assert forall i :: 0 <= i < |v| ==> t[|p| + i] == v[i] && v[i] in v;
    assert |u| >= |v|;
    assert t == t[..|s|];
  }

  lemma {:induction false} WalkKidsAscend(n: Node, ks: seq<Node>, path: string)
    requires n.Dir? && WellNamed(n, path) && SortedByKey(path, ks)
    requires Below(ks, n) && forall k :: k in ks ==> k in n.kids && Visible(path, k)
    requires forall k :: k in ks && k.Dir? ==> Ascending(Walk(k, ChildPath(path, k.name)))
    ensures Ascending(WalkKids(n, ks, path))
    decreases |ks|
  {
    hide UnescapeKey, EscapeKey, IsInternalPath, SortKey, Less, Walk, DistinctSortKeys;
    if ks != [] {
      var k := ks[0];
      assert k in ks && GoodName(path, k);
      WalkKidsAscend(n, ks[1..], path);
      var xs, ys := WalkKid(k, path), WalkKids(n, ks[1..], path);
      assert Ascending(xs);
      forall i, j | 0 <= i < |xs| && 0 <= j < |ys|
        ensures Less(xs[i].key, ys[j].key)
      {
        WalkMember(n, ks[1..], path, ys[j]);
        var m :| m in ks[1..] && ys[j] in WalkKid(m, path);
        var at :| 0 <= at < |ks| - 1 && ks[1..][at] == m;
        assert ks[at + 1] == m && m in ks && GoodName(path, m);
        BlocksInOrder(path, k, m, xs[i], ys[j]);
      }
      AppendAscending(xs, ys);
    }
  }

  lemma AppendAscending(xs: seq<Blob>, ys: seq<Blob>)
    requires Ascending(xs) && Ascending(ys)
    requires forall i, j :: 0 <= i < |xs| && 0 <= j < |ys| ==> Less(xs[i].key, ys[j].key)
    ensures Ascending(xs + ys)
  {
    hide Less;
  }

  /** The depth-first order is the order of the keys, at every depth. */
  lemma {:induction false} WalkAscends(n: Node, path: string)
    requires n.Dir? && WellNamed(n, path)
    ensures Ascending(Walk(n, path))
    decreases n
  {
    hide UnescapeKey, EscapeKey, IsInternalPath, SortKey, Less, DistinctSortKeys;
    var ks := Children(path, n.kids);
    SortSorted(path, VisibleKids(path, n.kids));
    forall k | k in ks && k.Dir?
      ensures Ascending(Walk(k, ChildPath(path, k.name)))
    {
      WalkAscends(k, ChildPath(path, k.name));
    }
    ChildrenBelow(n, path);
    WalkKidsAscend(n, ks, path);
  }

  /** An ascending sequence is determined by the set of its elements. */
  lemma {:induction false} AscendingUnique(xs: seq<Blob>, ys: seq<Blob>)
    requires Ascending(xs) && Ascending(ys)
    requires forall b :: b in xs <==> b in ys
    ensures xs == ys
    decreases |xs|
  {
    hide Less;
    assert xs != [] ==> xs[0] in xs;
    assert ys != [] ==> ys[0] in ys;
    if xs != [] {
      var i :| 0 <= i < |ys| && ys[i] == xs[0];
      var j :| 0 <= j < |xs| && xs[j] == ys[0];
      if xs[0] != ys[0] {
        LessAsymmetric(ys[0].key, xs[0].key);
      }
      TailElements(xs);
      TailElements(ys);
      AscendingUnique(xs[1..], ys[1..]);
      assert xs == [xs[0]] + xs[1..] && ys == [ys[0]] + ys[1..];
    }
  }

  lemma TailElements(xs: seq<Blob>)
    requires xs != [] && Ascending(xs)
    ensures Ascending(xs[1..])
    ensures forall b :: b in xs[1..] <==> b in xs && b != xs[0]
  {
    hide Less;
    LessIrreflexive(xs[0].key);
    forall b | b in xs[1..]
      ensures b in xs && b != xs[0]
    {
      var i :| 0 <= i < |xs| - 1 && xs[1..][i] == b;
      assert Less(xs[0].key, xs[i + 1].key);
    }
    assert xs == [xs[0]] + xs[1..];
  }

  // ---- directories with one entry ----

  lemma OneSortKey(path: string, k: Node)
    ensures DistinctSortKeys(path, VisibleKids(path, [k]))
  {
    hide IsInternalPath, SortKey;
    assert [k][..0] == [] && [k][0] == k;
    assert VisibleKids(path, [k][..0]) == [];
  }

  lemma OneChild(path: string, k: Node)
    requires Visible(path, k)
    ensures Children(path, [k]) == [k] && VisibleKids(path, [k]) == [k]
  {
    hide IsInternalPath, UnescapeKey;
    assert [k][..0] == [] && VisibleKids(path, []) == [];
    assert VisibleKids(path, [k]) == [] + [k];
    assert Sort(path, []) == [] && Sort(path, [k]) == Insert(path, k, []);
  }
}
