/** The pruned walk of ListPaged as a function, and why pruning changes nothing
    (webdav.go:273-495, list.go:38-287). */
module Walk {
  import opened Strings
  import opened Escape
  import opened KeyEscape
  import opened Listing
  import opened Paging
  import opened Reserved
  import opened Tree

  /** The lister's fields and the number of directories read so far. */
  datatype Walked = Walked(acc: Acc, dirsRead: nat)

  datatype Probed = Probed(found: bool, dirsRead: nat)

  predicate HasFile(ks: seq<Node>) {
    exists k :: k in ks && k.File?
  }

  /** hasKey: is there a blob anywhere below?  Files are looked for before any
      subdirectory is read. */
  function Probe(n: Node, path: string): Probed
    requires n.Dir?
    decreases n, 1
  {
    var ks := VisibleKids(path, n.kids);
    if HasFile(ks) then Probed(true, 1)
    else
      VisibleBelow(n, path);
      var r := ProbeDirs(n, ks, path);
      r.(dirsRead := r.dirsRead + 1)
  }

  function ProbeDirs(n: Node, ks: seq<Node>, path: string): Probed
    requires Below(ks, n)
    decreases n, 0, |ks|
  {
    if ks == [] then Probed(false, 0)
    else if ks[0].File? then ProbeDirs(n, ks[1..], path)
    else
      var r := Probe(ks[0], ChildPath(path, ks[0].name));
      if r.found then r
      else
        var rest := ProbeDirs(n, ks[1..], path);
        rest.(dirsRead := rest.dirsRead + r.dirsRead)
  }

  lemma VisibleBelow(n: Node, path: string)
    requires n.Dir?
    ensures Below(VisibleKids(path, n.kids), n)
  {
    var ks := VisibleKids(path, n.kids);
    forall i | 0 <= i < |ks|
      ensures ks[i] < n
    {
      assert ks[i] in ks && ks[i] in n.kids;
    }
  }

  /** visit: read a directory, sort its entries, and go through them until the
      page is full. */
  function Visit(o: Options, n: Node, path: string, w: Walked): Walked
    requires n.Dir?
    decreases n, 1
  {
    ChildrenBelow(n, path);
    VisitKids(o, n, Children(path, n.kids), path, w.(dirsRead := w.dirsRead + 1))
  }

  function VisitKids(o: Options, n: Node, ks: seq<Node>, path: string, w: Walked): Walked
    requires Below(ks, n)
    decreases n, 0, |ks|
  {
    if ks == [] || w.acc.full then w
    else VisitKids(o, n, ks[1..], path, VisitKid(o, ks[0], path, w))
  }

  function VisitKid(o: Options, k: Node, path: string, w: Walked): Walked
    decreases k, 2
  {
    var key := UnescapeKey(ChildPath(path, k.name));
    match k
    case File(_, size) => w.(acc := Emit(o, w.acc, key, Some(Object(key, false, size))))
    case Dir(_, _) =>
      if !Descends(o, key + "/") then w
      else if Collapses(o, key + "/") then
        var r := Probe(k, ChildPath(path, k.name));
        Walked(if r.found then Emit(o, w.acc, key + "/", None) else w.acc, w.dirsRead + r.dirsRead)
      else Visit(o, k, ChildPath(path, k.name), w)
  }

  // ---- the probe ----

  lemma {:induction false} ProbeFinds(n: Node, path: string)
    requires n.Dir?
    ensures Probe(n, path).found <==> Tree.Walk(n, path) != []
    decreases n, 1
  {
    hide UnescapeKey, EscapeKey, IsInternalPath, SortKey, WalkKid, ProbeDirs;
    var vs, ks := VisibleKids(path, n.kids), Children(path, n.kids);
    ChildrenBelow(n, path);
    VisibleBelow(n, path);
    if HasFile(vs) {
      var k :| k in vs && k.File?;
      assert k in ks;
      FileKidBlob(k, path);
      WalkMember(n, ks, path, WalkKid(k, path)[0]);
    } else {
      ProbeDirsFinds(n, vs, path);
      if Probe(n, path).found {
        var k :| k in vs && WalkKid(k, path) != [];
        assert k in ks && WalkKid(k, path)[0] in WalkKid(k, path);
        WalkMember(n, ks, path, WalkKid(k, path)[0]);
      } else if Tree.Walk(n, path) != [] {
        var b := Tree.Walk(n, path)[0];
        WalkMember(n, ks, path, b);
      }
    }
  }

  lemma FileKidBlob(k: Node, path: string)
    requires k.File?
    ensures WalkKid(k, path) == [Blob(UnescapeKey(ChildPath(path, k.name)), k.size)]
  {
  }

  lemma {:induction false} ProbeDirsFinds(n: Node, vs: seq<Node>, path: string)
    requires n.Dir? && Below(vs, n)
    requires forall k :: k in vs ==> k in n.kids && k.Dir?
    ensures ProbeDirs(n, vs, path).found <==> exists k :: k in vs && WalkKid(k, path) != []
    decreases n, 0, |vs|
  {
    hide UnescapeKey, EscapeKey, IsInternalPath, SortKey, Probe;
    if vs != [] {
      var k := vs[0];
      assert vs[0] in vs && vs == [vs[0]] + vs[1..];
      assert WalkKid(k, path) == Tree.Walk(k, ChildPath(path, k.name));
      ProbeFinds(k, ChildPath(path, k.name));
      ProbeDirsFinds(n, vs[1..], path);
    }
  }

  // ---- pruning changes nothing ----

  /** What WellNamed says of one visible entry. */
  predicate GoodKid(path: string, k: Node) {
    GoodName(path, k) && Visible(path, k) && WellNamed(k, ChildPath(path, k.name))
  }

  lemma SubAllBeneath(k: Node, path: string)
    requires k.Dir? && GoodKid(path, k)
    ensures AllBeneath(WalkKid(k, path), UnescapeKey(ChildPath(path, k.name)) + "/")
  {
    hide UnescapeKey, EscapeKey, IsInternalPath, WalkKid, WellNamed, GoodName;
    forall b | b in WalkKid(k, path)
      ensures HasPrefix(b.key, UnescapeKey(ChildPath(path, k.name)) + "/")
    {
      KidBeneath(k, path, b);
    }
  }

  /** After an entry the page is the ideal one for all blobs up to the end of that
      entry, whether the walk went through them, skipped them or collapsed them. */
  lemma {:induction false} VisitKidGood(o: Options, k: Node, path: string, w: Walked, bs: seq<Blob>)
    requires Good(o, w.acc, bs) && GoodKid(path, k) && Ascending(bs + WalkKid(k, path))
    ensures Good(o, VisitKid(o, k, path, w).acc, bs + WalkKid(k, path))
    decreases k, 2
  {
    hide UnescapeKey, EscapeKey, IsInternalPath, WellNamed, GoodName, Good, Visible, Emit, Less,
         Descends, Collapses, Probe, Visit, Walk;
    var ks := WalkKid(k, path);
    if k.File? {
      EmitGood(o, w.acc, bs, ks[0]);
    } else {
      var dir := ChildPath(path, k.name);
      var sub := UnescapeKey(dir) + "/";
      SubAllBeneath(k, path);
      if !Descends(o, sub) {
        forall b | b in ks && Result(o, b).Some?
          ensures !Beyond(o, Result(o, b).value)
        {
          RefusedSubtree(o, sub, b);
        }
        SkipGood(o, w.acc, bs, ks);
      } else if Collapses(o, sub) {
        ProbeFinds(k, dir);
        if ks != [] {
          CollapseGood(o, w.acc, bs, ks, sub);
        } else {
          assert bs + [] == bs;
        }
      } else {
        VisitGood(o, k, dir, w, bs);
      }
    }
  }

  lemma {:induction false} VisitKidsGood(o: Options, n: Node, ks: seq<Node>, path: string, w: Walked, bs: seq<Blob>)
    requires Below(ks, n) && forall k :: k in ks ==> GoodKid(path, k)
    requires Good(o, w.acc, bs) && Ascending(bs + WalkKids(n, ks, path))
    ensures Good(o, VisitKids(o, n, ks, path, w).acc, bs + WalkKids(n, ks, path))
    decreases n, 0, |ks|
  {
    hide UnescapeKey, GoodKid, Good, VisitKid, WalkKid, Ascending;
    if ks == [] {
      assert bs + [] == bs;
    } else if w.acc.full {
      FullGood(o, w.acc, bs, WalkKids(n, ks, path));
    } else {
      var xs, ys := WalkKid(ks[0], path), WalkKids(n, ks[1..], path);
      assert bs + (xs + ys) == (bs + xs) + ys;
      AscendingFront(bs + xs, ys);
      assert ks[0] in ks;
      VisitKidGood(o, ks[0], path, w, bs);
      VisitKidsGood(o, n, ks[1..], path, VisitKid(o, ks[0], path, w), bs + xs);
    }
  }

  lemma WellNamedKids(n: Node, path: string)
    requires n.Dir? && WellNamed(n, path)
    ensures forall k :: k in Children(path, n.kids) ==> GoodKid(path, k)
  {
    hide UnescapeKey, EscapeKey, IsInternalPath, DistinctSortKeys;
  }

  lemma {:induction false} VisitGood(o: Options, n: Node, path: string, w: Walked, bs: seq<Blob>)
    requires n.Dir? && WellNamed(n, path)
    requires Good(o, w.acc, bs) && Ascending(bs + Tree.Walk(n, path))
    ensures Good(o, Visit(o, n, path, w).acc, bs + Tree.Walk(n, path))
    decreases n, 1
  {
    hide UnescapeKey, Good, WellNamed, Ascending, VisitKids, WalkKids;
    ChildrenBelow(n, path);
    WellNamedKids(n, path);
    VisitKidsGood(o, n, Children(path, n.kids), path, w.(dirsRead := w.dirsRead + 1), bs);
  }

  // ---- where the walk starts ----

  /** The key of the deepest directory that can contain the prefix. */
  function StartKey(prefix: string): Option<string> {
    match LastSlash(prefix)
    case None => None
    case Some(i) => Some(prefix[..i])
  }

  function StartPath(prefix: string): string {
    match StartKey(prefix)
    case None => ""
    case Some(key) => EscapeKey(key)
  }

  /** The bucket's directory and those above it, up to the root of the file system. */
  datatype Disk = Disk(root: Node, above: seq<Node>)

  predicate IsDisk(disk: Disk) {
    disk.root.Dir? && forall d :: d in disk.above ==> d.Dir?
  }

  /** The directory so many levels above the bucket's; the topmost is above itself. */
  function Level(disk: Disk, up: nat): (n: Node)
    requires IsDisk(disk)
    ensures n.Dir?
  {
    if up == 0 || disk.above == [] then disk.root
    else if up <= |disk.above| then disk.above[up - 1]
    else disk.above[|disk.above| - 1]
  }

  /** A cleaned path: so many levels up from the bucket's directory, and then down. */
  datatype Place = Place(up: nat, names: seq<string>)

  /** path.Join(dir, path), relative to dir. */
  function Clean(path: string): Place
    decreases |path|
  {
    match LastSlash(path)
    case None => Push(Place(0, []), path)
    case Some(i) => Push(Clean(path[..i]), path[i + 1..])
  }

  function Push(at: Place, name: string): Place {
    if name == "" || name == "." then at
    else if name != ".." then at.(names := at.names + [name])
    else if at.names == [] then at.(up := at.up + 1)
    else at.(names := at.names[..|at.names| - 1])
  }

  /** Cleaning, name by name: an empty one and "." stay where they are, ".." goes up, and
      any other goes down. */
  lemma CleanIs(path: string, name: string)
    requires '/' !in name
    ensures var at := Clean(path);
            && Clean("") == Place(0, [])
            && (name == "" || name == "." ==> Clean(path + "/" + name) == at)
            && (name != "" && name != "." && name != ".." ==>
                  Clean(path + "/" + name) == Place(at.up, at.names + [name]))
            && (name == ".." && at.names == [] ==> Clean(path + "/" + name) == Place(at.up + 1, []))
            && (name == ".." && at.names != [] ==>
                  Clean(path + "/" + name) == Place(at.up, at.names[..|at.names| - 1]))
  {
    LastSlashOfChild(path, name);
    LastSlashOfChild("", "");
    var p := path + "/" + name;
    assert p[..|path|] == path && p[|path| + 1..] == name;
  }

  function FindDir(kids: seq<Node>, name: string): (r: Option<Node>)
    ensures r.Some? ==> r.value in kids && r.value.Dir? && r.value.name == name
  {
    if kids == [] then None
    else if kids[0].Dir? && kids[0].name == name then Some(kids[0])
    else FindDir(kids[1..], name)
  }

  function Lookup(root: Node, names: seq<string>): (r: Option<Node>)
    requires root.Dir?
    ensures r.Some? ==> r.value.Dir?
  {
    if names == [] then Some(root)
    else
      match Lookup(root, names[..|names| - 1])
      case None => None
      case Some(d) => FindDir(d.kids, names[|names| - 1])
  }

  /** ReadDir, or PROPFIND with Depth 1: the directory at a path, if there is one. */
  function ReadDir(disk: Disk, path: string): (r: Option<Node>)
    requires IsDisk(disk)
    ensures r.Some? ==> r.value.Dir?
  {
    var at := Clean(path);
    Lookup(Level(disk, at.up), at.names)
  }

  /** ListPaged, with the page size filled in. */
  function ListPage(disk: Disk, o: Options): Walked
    requires IsDisk(disk)
  {
    var path := StartPath(o.prefix);
    match ReadDir(disk, path)
    case None => Walked(EMPTY, 1)
    case Some(n) => Visit(o, n, path, Walked(EMPTY, 0))
  }

  /** A path of proper names, one below the other. */
  predicate CleanPath(path: string)
    decreases |path|
  {
    match LastSlash(path)
    case None => path == "" || IsName(path)
    case Some(i) => path[..i] != "" && CleanPath(path[..i]) && IsName(path[i + 1..])
  }

  lemma {:induction false} LastSlashIs(p: string, i: nat)
    requires i < |p| && p[i] == '/' && forall j :: i < j < |p| ==> p[j] != '/'
    ensures LastSlash(p) == Some(i)
    decreases |p|
  {
    if p[|p| - 1] != '/' {
      LastSlashIs(p[..|p| - 1], i);
    }
  }

  lemma LastSlashOfChild(path: string, name: string)
    requires '/' !in name
    ensures LastSlash(path + "/" + name) == Some(|path|)
    ensures LastSlash(name) == None
  {
    hide LastSlash;
    SlashThenName(path, name);
    LastSlashIs(path + "/" + name, |path|);
    NoSlash(name);
  }

  lemma SlashThenName(path: string, name: string)
    requires '/' !in name
    ensures var p := path + "/" + name;
            |p| == |path| + 1 + |name| && p[|path|] == '/' && forall j :: |path| < j < |p| ==> p[j] != '/'
  {
    var p := path + "/" + name;
    assert forall j :: |path| < j < |p| ==> p[j] == name[j - |path| - 1] && name[j - |path| - 1] in name;
  }

  lemma NoSlash(name: string)
    requires '/' !in name
    ensures LastSlash(name) == None
  {
  }

  lemma CleanChild(path: string, name: string)
    requires IsName(name)
    ensures Clean(ChildPath(path, name)) == Push(Clean(path), name)
    ensures CleanPath(path) ==> CleanPath(ChildPath(path, name))
  {
    LastSlashOfChild(path, name);
    if path == "" {
      LastSlashOfChild("", "");
      assert Clean("") == Place(0, []);
    } else {
      var p := path + "/" + name;
      assert p[..|path|] == path && p[|path| + 1..] == name;
    }
  }

  lemma {:induction false} FindDirFinds(kids: seq<Node>, k: Node)
    requires k in kids && k.Dir?
    requires forall i, j :: 0 <= i < j < |kids| ==> kids[i].name != kids[j].name
    ensures FindDir(kids, k.name) == Some(k)
  {
    if kids[0] != k {
      var i :| 0 <= i < |kids| && kids[i] == k;
      assert kids[0].name != kids[i].name;
      assert kids[1..][i - 1] == k;
      FindDirFinds(kids[1..], k);
    }
  }

  /** A directory that is read by a clean path is part of the tree. */
  lemma {:induction false} ReadDirInTree(disk: Disk, path: string)
    requires IsDisk(disk) && WellNamed(disk.root, "") && CleanPath(path) && ReadDir(disk, path).Some?
    ensures var n := ReadDir(disk, path).value;
            WellNamed(n, path) && BlobSet(n, path) <= BlobSet(disk.root, "")
    ensures path == "" || EscapeKey(UnescapeKey(path)) == path
    decreases |path|
  {
    hide UnescapeKey, EscapeKey, IsInternalPath, DistinctSortKeys, BlobSet, CleanPath, ReadDir;
    if path == "" {
      ReadRoot(disk);
    } else {
      var front, name := ParentPath(path);
      ReadDirOfChild(disk, front, name);
      ReadDirInTree(disk, front);
      var d, n := ReadDir(disk, front).value, ReadDir(disk, path).value;
      assert GoodName(front, n);
      forall b | b in BlobSet(n, path)
        ensures b in BlobSet(disk.root, "")
      {
        DirBlobs(d, front, b);
      }
    }
  }

  lemma ReadRoot(disk: Disk)
    requires IsDisk(disk)
    ensures ReadDir(disk, "") == Some(disk.root) && CleanPath("") && Clean("") == Place(0, [])
  {
    LastSlashOfChild("", "");
    assert Clean("") == Place(0, []);
  }

  lemma ReadDirOfChild(disk: Disk, path: string, name: string)
    requires IsDisk(disk) && IsName(name)
    ensures ReadDir(disk, ChildPath(path, name))
         == match ReadDir(disk, path) case None => None case Some(d) => FindDir(d.kids, name)
  {
    hide FindDir, Clean;
    CleanChild(path, name);
    var names := Clean(path).names + [name];
    assert names[..|names| - 1] == Clean(path).names;
  }

  lemma ParentPath(path: string) returns (front: string, name: string)
    requires CleanPath(path) && path != ""
    ensures path == ChildPath(front, name) && CleanPath(front) && IsName(name) && |front| < |path|
  {
    match LastSlash(path)
    case None =>
      front, name := "", path;
      LastSlashOfChild("", "");
    case Some(i) =>
      front, name := path[..i], path[i + 1..];
      assert path == path[..i] + [path[i]] + path[i + 1..];
  }

  /** Where a directory with the key is: at the path that KeyEscape gives it.  The
      search goes down from a directory m at path q whose key the key extends. */
  lemma {:induction false} KeyDirectory(disk: Disk, m: Node, q: string, key: string, b: Blob)
      returns (d: Node)
    requires IsDisk(disk) && m.Dir? && WellNamed(m, q) && CleanPath(q) && ReadDir(disk, q) == Some(m)
    requires q == "" || EscapeKey(UnescapeKey(q)) == q
    requires key != "" && HasPrefix(key + "/", KeyPrefix(q)) && HasPrefix(b.key, key + "/")
    requires b in BlobSet(m, q)
    ensures CleanPath(EscapeKey(key)) && ReadDir(disk, EscapeKey(key)) == Some(d)
    ensures UnescapeKey(EscapeKey(key)) == key && b in BlobSet(d, EscapeKey(key))
    decreases m
  {
    hide UnescapeKey, EscapeKey, IsInternalPath, DistinctSortKeys, BlobSet, CleanPath, ReadDir, SortKey;
    if KeyPrefix(q) == key + "/" {
      assert q != "";
      assert UnescapeKey(q) == (key + "/")[..|key|] == key;
      d := m;
    } else {
      DirBlobs(m, q, b);
      var k :| k in m.kids && b in BlobSet(k, ChildPath(q, k.name));
      var dir := ChildPath(q, k.name);
      assert GoodName(q, k) && WellNamed(k, dir);
      EntryKey(q, k, b);
      NextOnTheWay(KeyPrefix(q), UnescapeKey(k.name), k.Dir?, key, b.key);
      AllBelow(m);
      ReadDirOfChild(disk, q, k.name);
      FindDirFinds(m.kids, k);
      CleanChild(q, k.name);
      KidKey(q, k);
      d := KeyDirectory(disk, k, dir, key, b);
    }
  }

  /** The key of what is at or below an entry, around its name. */
  lemma EntryKey(q: string, k: Node, b: Blob)
    requires GoodName(q, k) && b in BlobSet(k, ChildPath(q, k.name))
    ensures var u := UnescapeKey(k.name);
            && u != "" && '/' !in u && (Visible(q, k) || k.Dir?)
            && HasPrefix(b.key, KeyPrefix(q) + u + if k.Dir? then "/" else "")
            && (k.File? ==> b.key == KeyPrefix(q) + u)
  {
    hide UnescapeKey, EscapeKey, IsInternalPath, BlobSet;
    if k.Dir? {
      SetBeneath(k, ChildPath(q, k.name), b);
      KidKey(q, k);
    } else {
      KidShown(q, k, b);
      KidKey(q, k);
      assert b.key + "" == b.key;
    }
  }

  /** Text on names: if a key goes on with u below p, then a longer directory key
      that the same key begins with goes through u as a directory. */
  lemma NextOnTheWay(p: string, u: string, isDir: bool, key: string, bkey: string)
    requires '/' !in u && u != ""
    requires HasPrefix(key + "/", p) && key + "/" != p && HasPrefix(bkey, key + "/")
    requires HasPrefix(bkey, p + u + if isDir then "/" else "")
    requires !isDir ==> bkey == p + u
    requires p == "" || p[|p| - 1] == '/'
    ensures isDir && HasPrefix(key + "/", p + u + "/")
  {
    var t := key + "/";
    assert t[|key|] == '/' && bkey[|key|] == t[|key|];
    assert |key| >= |p|;
    var s := p + u;
    assert forall i :: 0 <= i < |u| ==> s[|p| + i] == u[i] && u[i] in u;
    assert bkey[..|s|] == s;
    assert |key| >= |s|;
    assert isDir;
    var x := s + "/";
    assert t == bkey[..|t|] && x == bkey[..|x|];
    assert t[..|x|] == x;
  }

  /** A key with the prefix is below the directory that the walk starts at. */
  lemma StartHoldsPrefix(disk: Disk, prefix: string, b: Blob)
    requires IsDisk(disk) && WellNamed(disk.root, "") && b in BlobSet(disk.root, "") && HasPrefix(b.key, prefix)
    ensures var p := StartPath(prefix);
            && CleanPath(p) && ReadDir(disk, p).Some? && b in BlobSet(ReadDir(disk, p).value, p)
            && (StartKey(prefix).Some? ==> UnescapeKey(p) == StartKey(prefix).value)
  {
    hide UnescapeKey, EscapeKey, WellNamed, BlobSet;
    ReadRoot(disk);
    match StartKey(prefix)
    case None =>
    case Some(key) =>
      var i := |key|;
      assert key + "/" == prefix[..i + 1];
      assert b.key[..|prefix|][..i + 1] == key + "/";
      if key == "" {
        EscapeKeyEmpty();
      } else {
        var d := KeyDirectory(disk, disk.root, "", key, b);
      }
  }

  lemma EscapeKeyEmpty()
    ensures EscapeKey("") == "" && UnescapeKey("") == ""
  {
    EscapeFromEnd("", KeyRule);
    UnescapeEmpty();
  }

  /** Blobs that do not have the prefix do not matter. */
  lemma {:induction false} ResultsOfPrefixed(o: Options, bs: seq<Blob>)
    ensures Results(o, bs) == Results(o, Prefixed(o, bs))
    decreases |bs|
  {
    if bs != [] {
      hide Result;
      var front, b := bs[..|bs| - 1], bs[|bs| - 1];
      ResultsOfPrefixed(o, front);
      if HasPrefix(b.key, o.prefix) {
        ResultsSnoc(o, Prefixed(o, front), b);
        assert Prefixed(o, bs) == Prefixed(o, front) + [b];
      } else {
        NoPrefixNoResult(o, b);
        assert Prefixed(o, bs) == Prefixed(o, front);
      }
    }
  }

  lemma {:induction false} NothingPrefixed(o: Options, bs: seq<Blob>)
    requires forall b :: b in bs ==> !HasPrefix(b.key, o.prefix)
    ensures Prefixed(o, bs) == []
    decreases |bs|
  {
    if bs != [] {
      assert bs[|bs| - 1] in bs;
      NothingPrefixed(o, bs[..|bs| - 1]);
    }
  }

  lemma NoPrefixNoResult(o: Options, b: Blob)
    requires !HasPrefix(b.key, o.prefix)
    ensures Result(o, b) == None
  {
  }

  function Prefixed(o: Options, bs: seq<Blob>): (r: seq<Blob>)
    ensures forall b :: b in r <==> b in bs && HasPrefix(b.key, o.prefix)
  {
    if bs == [] then []
    else
      var b := bs[|bs| - 1];
      assert bs == bs[..|bs| - 1] + [b];
      Prefixed(o, bs[..|bs| - 1]) + if HasPrefix(b.key, o.prefix) then [b] else []
  }

  lemma {:induction false} PrefixedAscends(o: Options, bs: seq<Blob>)
    requires Ascending(bs)
    ensures Ascending(Prefixed(o, bs))
    decreases |bs|
  {
    hide Less;
    if bs != [] {
      var front, b := bs[..|bs| - 1], bs[|bs| - 1];
      PrefixedAscends(o, front);
      forall i | 0 <= i < |Prefixed(o, front)|
        ensures Less(Prefixed(o, front)[i].key, b.key)
      {
        assert Prefixed(o, front)[i] in front;
      }
    }
  }

  /** What a listing with the prefix is to show: the bucket's blobs, but for those in
      directories taken for bookkeeping below the start directory. */
  ghost predicate Enumerates(all: seq<Blob>, root: Node, prefix: string) {
    Ascending(all) && forall b :: b in all <==> b in BlobSet(root, "") && Shown(StartPath(prefix), b.key)
  }

  /** The results of the start directory are those of the whole bucket. */
  lemma StartIsEnough(disk: Disk, o: Options, all: seq<Blob>)
    requires IsDisk(disk) && WellNamed(disk.root, "") && CleanPath(StartPath(o.prefix))
    requires Enumerates(all, disk.root, o.prefix)
    ensures var p := StartPath(o.prefix);
            var here := match ReadDir(disk, p) case None => [] case Some(n) => Tree.Walk(n, p);
            Results(o, here) == Results(o, all) && Ascending(here)
  {
    hide WellNamed, Tree.Walk, StartPath, Results, Less, ReadDir, BlobSet, Ascending, CleanPath, Shown;
    var p := StartPath(o.prefix);
    var here := match ReadDir(disk, p) case None => [] case Some(n) => Tree.Walk(n, p);
    if ReadDir(disk, p).Some? {
      ReadDirInTree(disk, p);
      WalkAscends(ReadDir(disk, p).value, p);
    } else {
      AscendingEmpty();
    }
    forall b
      ensures b in Prefixed(o, here) <==> b in Prefixed(o, all)
    {
      if ReadDir(disk, p).Some? {
        WalkFindsAll(ReadDir(disk, p).value, p, b);
      }
      if b in Prefixed(o, all) {
        StartHoldsPrefix(disk, o.prefix, b);
      }
    }
    PrefixedAscends(o, here);
    PrefixedAscends(o, all);
    AscendingUnique(Prefixed(o, here), Prefixed(o, all));
    ResultsOfPrefixed(o, here);
    ResultsOfPrefixed(o, all);
  }

  lemma AscendingEmpty()
    ensures Ascending([])
  {
  }

  // ---- what the file system guarantees ----

  /** Entries have proper names, and siblings have different ones. */
  predicate FileSystemTree(n: Node) {
    n.Dir? ==>
      && (forall i, j :: 0 <= i < j < |n.kids| ==> n.kids[i].name != n.kids[j].name)
      && (forall k :: k in n.kids ==> IsName(k.name) && FileSystemTree(k))
  }

  lemma {:induction false} WellNamedTree(n: Node, path: string)
    requires WellNamed(n, path)
    ensures FileSystemTree(n)
    decreases n
  {
    hide UnescapeKey, EscapeKey, IsInternalPath, DistinctSortKeys;
    if n.Dir? {
      forall k | k in n.kids
        ensures IsName(k.name) && FileSystemTree(k)
      {
        assert GoodName(path, k);
        WellNamedTree(k, ChildPath(path, k.name));
      }
    }
  }

  predicate FileSystem(disk: Disk) {
    IsDisk(disk) && FileSystemTree(disk.root) && forall d :: d in disk.above ==> FileSystemTree(d)
  }

  lemma {:induction false} LookupTree(root: Node, names: seq<string>)
    requires root.Dir? && FileSystemTree(root) && Lookup(root, names).Some?
    ensures FileSystemTree(Lookup(root, names).value)
    decreases |names|
  {
    if names != [] {
      LookupTree(root, names[..|names| - 1]);
    }
  }

  /** The walk finds the directories that it has seen. */
  lemma ReadDirChild(disk: Disk, path: string, n: Node, k: Node)
    requires FileSystem(disk) && ReadDir(disk, path) == Some(n)
    requires k in n.kids && k.Dir?
    ensures ReadDir(disk, ChildPath(path, k.name)) == Some(k)
  {
    hide Clean, FileSystemTree;
    LookupTree(Level(disk, Clean(path).up), Clean(path).names);
    KidsOfTree(n, k);
    ReadDirOfChild(disk, path, k.name);
    FindDirFinds(n.kids, k);
  }

  lemma KidsOfTree(n: Node, k: Node)
    requires n.Dir? && FileSystemTree(n) && k in n.kids
    ensures forall i, j :: 0 <= i < j < |n.kids| ==> n.kids[i].name != n.kids[j].name
    ensures IsName(k.name) && FileSystemTree(k) && k < n
  {
  }

  // ---- the main results ----

  /** The pruned walk returns exactly the page that results from feeding all blobs
      that are to be shown, in the order of their keys, to emit: the start directory,
      descend, collapses with hasKey, and the stop at a full page change nothing.
      all is any enumeration of these blobs in that order. */
  lemma PrunedWalkIsReference(disk: Disk, o: Options, all: seq<Blob>)
    requires IsDisk(disk) && WellNamed(disk.root, "") && o.pageSize >= 1
    requires CleanPath(StartPath(o.prefix)) && Enumerates(all, disk.root, o.prefix)
    ensures ToPage(ListPage(disk, o).acc) == ToPage(EmitAll(o, all))
    ensures ToPage(ListPage(disk, o).acc) == IdealPage(o, all)
  {
    hide WellNamed, Tree.Walk, StartPath, Results, Less, ReadDir, BlobSet, Ascending, CleanPath,
         Visit, EmitAll, ToPage, Good, Shown;
    var p := StartPath(o.prefix);
    ReferencePage(o, all);
    StartIsEnough(disk, o, all);
    GoodStart(o);
    match ReadDir(disk, p)
    case None =>
      GoodPage(o, EMPTY, []);
    case Some(n) =>
      ReadDirInTree(disk, p);
      assert [] + Tree.Walk(n, p) == Tree.Walk(n, p);
      VisitGood(o, n, p, Walked(EMPTY, 0), []);
      GoodPage(o, ListPage(disk, o).acc, Tree.Walk(n, p));
  }

  /** No key begins with a prefix whose directory part is not clean ("./", "a/../",
      "/a/"): for these the right page is the empty one. */
  lemma UncleanPrefixHasNoKeys(root: Node, o: Options, all: seq<Blob>)
    requires root.Dir? && WellNamed(root, "") && o.pageSize >= 1
    requires !CleanPath(StartPath(o.prefix)) && Enumerates(all, root, o.prefix)
    ensures IdealPage(o, all) == Page([], "")
  {
    hide WellNamed, StartPath, BlobSet, CleanPath, Less, Ascending, Shown;
    forall b | b in all
      ensures !HasPrefix(b.key, o.prefix)
    {
      if HasPrefix(b.key, o.prefix) {
        StartHoldsPrefix(Disk(root, []), o.prefix, b);
      }
    }
    NothingPrefixed(o, all);
    ResultsOfPrefixed(o, all);
  }
}
