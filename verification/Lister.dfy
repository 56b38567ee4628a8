/** The lister object, whose fields one page's walk updates as it goes
    (list.go:38-287; webdav.go:273-495 is the same walk over PROPFIND). */
module Lister {
  import opened Strings
  import opened KeyEscape
  import opened Listing
  import opened Pages
  import opened Paging
  import opened Prefixes
  import opened Reserved
  import opened Tree
  import opened Walk
  import opened WalkCost

  const DEFAULT_PAGE_SIZE := 1000

  class Lister {
    const disk: Disk
    const prefix: string
    const delimiter: string
    const pageSize: nat
    const pageToken: string

    var objects: seq<Object>
    var lastPrefix: string
    var full: bool

    // What a test counts through the readDir hook.
    ghost var dirsRead: nat

    constructor (disk: Disk, prefix: string, delimiter: string, pageSize: nat, pageToken: string)
      ensures this.disk == disk && GetOptions() == Options(prefix, delimiter, pageToken, pageSize)
      ensures State() == Walked(EMPTY, 0)
    {
      this.disk, this.prefix, this.delimiter := disk, prefix, delimiter;
      this.pageSize, this.pageToken := pageSize, pageToken;
      objects, lastPrefix, full, dirsRead := [], "", false, 0;
    }

    function GetOptions(): Options {
      Options(prefix, delimiter, pageToken, pageSize)
    }

    ghost function State(): Walked
      reads this
    {
      Walked(Acc(objects, lastPrefix, full), dirsRead)
    }

    /** How deep the directory at a path is, for termination. */
    ghost function HeightAt(path: string): nat
      requires IsDisk(disk)
    {
      match ReadDir(disk, path) case None => 0 case Some(n) => Height(n)
    }

    predicate Descend(dirKey: string) {
      Descends(GetOptions(), dirKey + "/")
    }

    predicate CollapsesDir(dirKey: string) {
      Collapses(GetOptions(), dirKey + "/")
    }

    method EmitKey(key: string, given: Option<Object>)
      modifies this
      ensures State() == old(State()).(acc := Emit(GetOptions(), old(State()).acc, key, given))
    {
      if !HasPrefix(key, prefix) {
        return;
      }
      var obj := given;
      if delimiter != "" {
        var rest := key[|prefix|..];
        var idx := Index(rest, delimiter);
        if idx.Some? {
          var dir := prefix + rest[..idx.value + |delimiter|];
          if dir == lastPrefix {
            return;
          }
          obj := Some(Object(dir, true, 0));
          lastPrefix := dir;
        }
      }
      if obj.None? {
        return;
      }
      if pageToken != "" && AtMost(obj.value.key, pageToken) {
        return;
      }
      if |objects| == pageSize {
        full := true;
        return;
      }
      objects := objects + [obj.value];
    }

    /** The first loop of hasKey: a file settles the question, directories wait. */
    method FileOrSubdirs(dir: string, infos: seq<Node>) returns (file: bool, subdirs: seq<Node>)
      ensures file == HasFile(VisibleKids(dir, infos))
      ensures !file ==> subdirs == VisibleKids(dir, infos)
    {
      hide IsInternalPath;
      file, subdirs := false, [];
      for i := 0 to |infos|
        invariant subdirs == VisibleKids(dir, infos[..i])
        invariant !HasFile(subdirs)
      {
        var info := infos[i];
        assert infos[..i + 1][..i] == infos[..i];
        if IsInternalPath(ChildPath(dir, info.name)) {
          continue;
        }
        if !info.Dir? {
          assert info in infos && info in VisibleKids(dir, infos);
          return true, [];
        }
        subdirs := subdirs + [info];
      }
      assert infos[..|infos|] == infos;
    }

    /** hasKey: is there a blob below a directory? */
    method HasKey(dir: string) returns (ok: bool)
      requires FileSystem(disk)
      modifies `dirsRead
      ensures ReadDir(disk, dir).None? ==> !ok && dirsRead == old(dirsRead) + 1
      ensures ReadDir(disk, dir).Some? ==>
                ok == Probe(ReadDir(disk, dir).value, dir).found
                && dirsRead == old(dirsRead) + Probe(ReadDir(disk, dir).value, dir).dirsRead
      decreases HeightAt(dir)
    {
      hide FileSystemTree, ReadDir, VisibleKids, Height, HasFile;
      dirsRead := dirsRead + 1;
      var found := ReadDir(disk, dir);
      if found.None? {
        return false;
      }
      var n := found.value;
      var file, vs := FileOrSubdirs(dir, n.kids);
      if file {
        return true;
      }
      VisibleBelow(n, dir);
      ghost var before := dirsRead;
      ghost var all := ProbeDirs(n, vs, dir);
      for i := 0 to |vs|
        invariant all.dirsRead + before == ProbeDirs(n, vs[i..], dir).dirsRead + dirsRead
        invariant all.found == ProbeDirs(n, vs[i..], dir).found
      {
        var sub := vs[i];
        assert sub in vs && sub in n.kids;
        assert vs[i..][1..] == vs[i + 1..] && vs[i..][0] == sub;
        NoFiles(vs, sub);
        ReadDirChild(disk, dir, n, sub);
        KidIsLower(n, sub);
        ok := HasKey(ChildPath(dir, sub.name));
        if ok {
          return true;
        }
      }
      return false;
    }

    method VisibleChildren(dir: string, infos: seq<Node>) returns (children: seq<Node>)
      ensures children == VisibleKids(dir, infos)
    {
      children := [];
      for i := 0 to |infos|
        invariant children == VisibleKids(dir, infos[..i])
      {
        hide IsInternalPath, VisibleKids;
        VisibleNext(dir, infos, i);
        if IsInternalPath(ChildPath(dir, infos[i].name)) {
          continue;
        }
        children := children + [infos[i]];
      }
      assert infos[..|infos|] == infos;
    }

    /** visit: one directory, and those below it that can still contribute. */
    method VisitDir(dir: string)
      requires FileSystem(disk)
      modifies this
      ensures ReadDir(disk, dir).None? ==> State() == old(State()).(dirsRead := old(dirsRead) + 1)
      ensures ReadDir(disk, dir).Some? ==>
                State() == Visit(GetOptions(), ReadDir(disk, dir).value, dir, old(State()))
      decreases HeightAt(dir), 1
    {
      hide FileSystemTree, ReadDir, VisitKid, Height, Sort;
      dirsRead := dirsRead + 1;
      var found := ReadDir(disk, dir);
      if found.None? {
        return;
      }
      var n := found.value;
      var children := VisibleChildren(dir, n.kids);
      children := Sort(dir, children);
      assert children == Children(dir, n.kids);
      ChildrenBelow(n, dir);
      ghost var o, w := GetOptions(), State();
      for i := 0 to |children|
        invariant VisitKids(o, n, children, dir, w) == VisitKids(o, n, children[i..], dir, State())
      {
        if full {
          return;
        }
        var c := children[i];
        assert children[i..][1..] == children[i + 1..] && children[i..][0] == c;
        assert c in children && c in n.kids;
        VisitEntry(dir, n, c);
      }
    }

    /** One turn of visit's loop. */
    method VisitEntry(dir: string, ghost n: Node, c: Node)
      requires FileSystem(disk) && ReadDir(disk, dir) == Some(n) && c in n.kids
      modifies this
      ensures State() == VisitKid(GetOptions(), c, dir, old(State()))
      decreases HeightAt(dir), 0
    {
      hide FileSystemTree, ReadDir, Emit, UnescapeKey, Height, Visit, Probe;
      var path := ChildPath(dir, c.name);
      var key := UnescapeKey(path);
      if !c.Dir? {
        EmitKey(key, Some(Object(key, false, c.size)));
        return;
      }
      if !Descend(key) {
        return;
      }
      ReadDirChild(disk, dir, n, c);
      KidIsLower(n, c);
      if CollapsesDir(key) {
        var ok := HasKey(path);
        if ok {
          EmitKey(key + "/", None);
        }
        return;
      }
      VisitDir(path);
    }

    method GetPage() returns (page: Page)
      ensures page == ToPage(State().acc)
    {
      var nextToken := "";
      if full && |objects| > 0 {
        nextToken := objects[|objects| - 1].key;
      }
      return Page(objects, nextToken);
    }
  }

  lemma NoFiles(ks: seq<Node>, k: Node)
    requires !HasFile(ks) && k in ks
    ensures k.Dir?
  {
  }

  lemma KidIsLower(n: Node, k: Node)
    requires n.Dir? && k in n.kids
    ensures Height(k) < Height(n)
  {
    AllBelow(n);
    KidLower(n, n.kids, k);
  }

  /** ListPaged. */
  method ListPaged(disk: Disk, prefix: string, delimiter: string, pageToken: string, requestedSize: nat)
      returns (page: Page)
    requires FileSystem(disk)
    ensures var pageSize := if requestedSize == 0 then DEFAULT_PAGE_SIZE else requestedSize;
            page == ToPage(ListPage(disk, Options(prefix, delimiter, pageToken, pageSize)).acc)
  {
    hide EscapeKey, FileSystemTree, Visit, ReadDir;
    var pageSize := requestedSize;
    if pageSize == 0 {
      pageSize := DEFAULT_PAGE_SIZE;
    }
    var l := new Lister(disk, prefix, delimiter, pageSize, pageToken);
    var start := "";
    var i := LastSlash(prefix);
    if i.Some? {
      start := EscapeKey(prefix[..i.value]);
    }
    l.VisitDir(start);
    page := l.GetPage();
  }

  /** What ListPaged promises: on a well-named bucket, and for every prefix that does not
      mislead, it returns the first pageSize results behind the token, of all blobs to be
      shown in the order of their keys; by default a thousand. */
  method ListBucket(disk: Disk, prefix: string, delimiter: string, pageToken: string, requestedSize: nat,
                    ghost all: seq<Blob>)
      returns (page: Page)
    requires FileSystem(disk) && WellNamed(disk.root, "")
    requires PrefixIsRight(prefix) && Enumerates(all, disk.root, prefix)
    ensures var pageSize := if requestedSize == 0 then DEFAULT_PAGE_SIZE else requestedSize;
            page == IdealPage(Options(prefix, delimiter, pageToken, pageSize), all)
    ensures IsPage(prefix, delimiter, pageToken, if requestedSize == 0 then 1000 else requestedSize, all, page)
  {
    hide EscapeKey, FileSystemTree, WellNamed, ListPage, IdealPage, PrefixIsRight, StartPath, BlobSet, Shown, IsPage;
    ghost var o := Options(prefix, delimiter, pageToken, if requestedSize == 0 then DEFAULT_PAGE_SIZE else requestedSize);
    page := ListPaged(disk, prefix, delimiter, pageToken, requestedSize);
    PageIsRight(disk, o, all);
    IdealPageIsPage(o, all);
  }
}
