/** For which prefixes a listing is right: the start directory is found by cleaning a
    path, so a prefix such as "./" or "../" can read a directory that is not where the
    prefix says (list.go:38-64, 306-312). */
module Prefixes {
  import opened Strings
  import opened KeyEscape
  import opened Listing
  import opened Pages
  import opened Paging
  import opened Reserved
  import opened Strays
  import opened Tree
  import opened Walk

  /** Names below a path, joined with slashes. */
  function Along(path: string, names: seq<string>): string {
    if names == [] then path else ChildPath(Along(path, names[..|names| - 1]), names[|names| - 1])
  }

  /** The names of directories that a bucket can have, one below the other. */
  predicate DirNames(names: seq<string>) {
    names == [] ||
    (var n := |names| - 1; DirNames(names[..n]) && GoodName(Along("", names[..n]), Dir(names[n], [])))
  }

  /** What a directory of a bucket can have as its key. */
  predicate IsDirKey(key: string) {
    var p := EscapeKey(key);
    CleanPath(p) && UnescapeKey(p) == key && DirNames(Clean(p).names)
  }

  /** The directory part of a prefix, if it has one, can be a directory's key. */
  predicate HasDirKey(prefix: string) {
    match StartKey(prefix) case None => true case Some(key) => key != "" && IsDirKey(key)
  }

  /** Can a file somewhere be reported with a key that has the prefix?  The keys reported
      begin with `at`.  In the bucket, the directory that is read, and the one below it to
      which the prefix goes on, must be such as keys can have, and be shown. */
  predicate Misleads(prefix: string) {
    var path := StartPath(prefix);
    var at, place := KeyPrefix(path), Clean(path);
    && !Contains(path, TEMP_INFIX)
    && if place.up > 0 then HasPrefix(at, prefix) || HasPrefix(prefix, at)
       else
         var here := Along("", place.names);
         && DirNames(place.names)
         && (|| HasPrefix(at, prefix)
             || (HasPrefix(prefix, at)
                 && var there := KeyPrefix(here) + prefix[|at|..];
                    HasDirKey(there) && Shown(here, there)))
  }

  predicate PrefixIsRight(prefix: string) {
    CleanPath(StartPath(prefix)) || !Misleads(prefix)
  }

  /** Each directory holds the one below. */
  ghost predicate Nested(disk: Disk)
    requires IsDisk(disk)
  {
    forall i :: 0 <= i < |disk.above| ==>
      exists k :: k in disk.above[i].kids && k.Dir? && k.kids == Level(disk, i).kids
  }

  /** Every page of every listing with the prefix is the right one, in all buckets. */
  ghost predicate AlwaysRight(prefix: string) {
    forall disk: Disk, o: Options, all: seq<Blob> ::
      o.prefix == prefix && o.pageSize >= 1 && FileSystem(disk) && Nested(disk) && WellNamed(disk.root, "")
      && Enumerates(all, disk.root, prefix) ==>
        ToPage(ListPage(disk, o).acc) == IdealPage(o, all)
  }

  // ---- names and paths ----

  predicate AllNames(names: seq<string>) {
    forall i :: 0 <= i < |names| ==> IsName(names[i])
  }

  lemma {:induction false} CleanNames(path: string)
    ensures AllNames(Clean(path).names)
    ensures !Contains(path, TEMP_INFIX) ==>
              forall i :: 0 <= i < |Clean(path).names| ==> !Contains(Clean(path).names[i], TEMP_INFIX)
    decreases |path|
  {
    hide Contains;
    match LastSlash(path)
    case None =>
    case Some(i) =>
      CleanNames(path[..i]);
      assert path == path[..i] + "/" + path[i + 1..];
      ContainsSplit(path[..i], path[i + 1..]);
  }

  lemma {:induction false} AlongNoInfix(path: string, names: seq<string>)
    requires !Contains(path, TEMP_INFIX)
    requires forall i :: 0 <= i < |names| ==> !Contains(names[i], TEMP_INFIX)
    ensures !Contains(Along(path, names), TEMP_INFIX)
  {
    hide Contains;
    if names != [] {
      var n := |names| - 1;
      AlongNoInfix(path, names[..n]);
      ContainsSplit(Along(path, names[..n]), names[n]);
    }
  }

  lemma {:induction false} CleanAlong(names: seq<string>)
    requires AllNames(names)
    ensures CleanPath(Along("", names)) && Clean(Along("", names)) == Place(0, names)
    ensures names != [] ==> Along("", names) != ""
  {
    hide Clean, CleanPath;
    if names == [] {
      ReadRoot(Disk(Dir("", []), []));
    } else {
      var n := |names| - 1;
      CleanAlong(names[..n]);
      CleanChild(Along("", names[..n]), names[n]);
      assert names[..n] + [names[n]] == names;
    }
  }

  lemma {:induction false} AlongClean(path: string)
    requires CleanPath(path)
    ensures Clean(path).up == 0 && Along("", Clean(path).names) == path
    decreases |path|
  {
    if path == "" {
      LastSlashOfChild("", "");
    } else {
      hide Clean, CleanPath;
      var front, name := ParentPath(path);
      AlongClean(front);
      CleanChild(front, name);
      var names := Clean(front).names + [name];
      assert names[..|names| - 1] == Clean(front).names;
    }
  }

  lemma {:induction false} DirNamesAreNames(names: seq<string>)
    requires DirNames(names)
    ensures AllNames(names)
    ensures names != [] ==> EscapeKey(UnescapeKey(Along("", names))) == Along("", names)
  {
    hide UnescapeKey, EscapeKey, IsInternalPath;
    if names != [] {
      DirNamesAreNames(names[..|names| - 1]);
    }
  }

  // ---- a prefix that does not mislead ----

  lemma {:induction false} ReadNames(root: Node, names: seq<string>)
    requires root.Dir? && WellNamed(root, "") && Lookup(root, names).Some?
    ensures var n, path := Lookup(root, names).value, Along("", names);
            DirNames(names) && WellNamed(n, path) && BlobSet(n, path) <= BlobSet(root, "")
    decreases |names|
  {
    hide UnescapeKey, EscapeKey, IsInternalPath, DistinctSortKeys, BlobSet;
    if names != [] {
      var m := |names| - 1;
      ReadNames(root, names[..m]);
      var d, n := Lookup(root, names[..m]).value, Lookup(root, names).value;
      var front := Along("", names[..m]);
      assert n in d.kids && n.name == names[m] && GoodName(front, n);
      forall b | b in BlobSet(n, Along("", names))
        ensures b in BlobSet(root, "")
      {
        DirBlobs(d, front, b);
      }
    }
  }

  lemma ShownPrefix(path: string, key: string, front: string)
    requires Shown(path, key) && HasPrefix(key, front)
    ensures Shown(path, front)
  {
    hide IsInternalPath, KeyPrefix, EscapeKey;
    forall i | |KeyPrefix(path)| <= i < |front| && front[i] == '/'
      ensures !IsInternalPath(EscapeKey(front[..i]))
    {
      assert key[..i] == front[..i] && key[i] == front[i];
    }
  }

  /** No key of a bucket begins with a slash. */
  lemma NoLeadingSlash(root: Node, b: Blob)
    requires root.Dir? && WellNamed(root, "") && b in BlobSet(root, "")
    ensures b.key != "" && b.key[0] != '/'
  {
    hide UnescapeKey, EscapeKey, IsInternalPath, DistinctSortKeys, BlobSet, GoodName;
    DirBlobs(root, "", b);
    var k :| k in root.kids && b in BlobSet(k, ChildPath("", k.name));
    EntryKey("", k, b);
    var u := UnescapeKey(k.name);
    assert u[0] in u && ("" + u + if k.Dir? then "/" else "")[0] == u[0];
  }

  /** The directory part of a key that a blob's key begins with. */
  lemma HeldDirPart(disk: Disk, prefix: string, b: Blob)
    requires IsDisk(disk) && WellNamed(disk.root, "") && b in BlobSet(disk.root, "") && HasPrefix(b.key, prefix)
    ensures HasDirKey(prefix)
  {
    hide WellNamed, BlobSet, UnescapeKey, EscapeKey, CleanPath, Clean, Lookup, DirNames;
    StartHoldsPrefix(disk, prefix, b);
    NoLeadingSlash(disk.root, b);
    AlongClean(StartPath(prefix));
    ReadNames(disk.root, Clean(StartPath(prefix)).names);
  }

  /** If a file is reported under the prefix, the prefix misleads. */
  lemma StrayKey(disk: Disk, prefix: string, n: Node, b: Blob)
    requires FileSystem(disk) && WellNamed(disk.root, "") && !CleanPath(StartPath(prefix))
    requires ReadDir(disk, StartPath(prefix)) == Some(n)
    requires b in Tree.Walk(n, StartPath(prefix)) && HasPrefix(b.key, prefix)
    ensures Misleads(prefix)
  {
    hide WellNamed, BlobSet, UnescapeKey, EscapeKey, CleanPath, Clean, Lookup, DirNames, Tree.Walk, Contains, Shown,
         IsInternalPath, StartPath, FileSystemTree, HasDirKey, KeyPrefix, Along;
    var path := StartPath(prefix);
    var at, place := KeyPrefix(path), Clean(path);
    ReadRoot(disk);
    var k := KidOfWalk(n, path, b);
    InternalSplit(path, k.name);
    WalkInSet(n, path, b);
    SetBeneath(n, path, b);
    if place.up == 0 {
      StrayInside(disk, prefix, n, b);
    }
  }

  lemma StrayInside(disk: Disk, prefix: string, n: Node, b: Blob)
    requires FileSystem(disk) && WellNamed(disk.root, "") && Clean(StartPath(prefix)).up == 0
    requires !Contains(StartPath(prefix), TEMP_INFIX)
    requires ReadDir(disk, StartPath(prefix)) == Some(n)
    requires b in Tree.Walk(n, StartPath(prefix)) && HasPrefix(b.key, prefix)
    ensures var path := StartPath(prefix);
            var at := KeyPrefix(path);
            var here := Along("", Clean(path).names);
            && DirNames(Clean(path).names)
            && (HasPrefix(prefix, at) ==>
                  var there := KeyPrefix(here) + prefix[|at|..]; HasDirKey(there) && Shown(here, there))
  {
    hide WellNamed, BlobSet, UnescapeKey, EscapeKey, CleanPath, Clean, Lookup, DirNames, Tree.Walk, Contains, Shown,
         IsInternalPath, StartPath, FileSystemTree, HasDirKey, KeyPrefix, Along, SameInternal;
    var path := StartPath(prefix);
    var at, names := KeyPrefix(path), Clean(path).names;
    var here := Along("", names);
    ReadNames(disk.root, names);
    CleanNames(path);
    assert !Contains("", TEMP_INFIX) by { NothingContains(); }
    AlongNoInfix("", names);
    NoInfixSame(path, here);
    WellNamedTree(n, here);
    assert at + "" == at && KeyPrefix(here) + "" == KeyPrefix(here);
    Moved(n, path, here, at, KeyPrefix(here), "", b);
    var c := Blob(KeyPrefix(here) + b.key[|at|..], b.size);
    WalkFindsAll(n, here, c);
    if HasPrefix(prefix, at) {
      var there := KeyPrefix(here) + prefix[|at|..];
      assert HasPrefix(c.key, there);
      ShownPrefix(here, c.key, there);
      HeldDirPart(disk, there, c);
    }
  }

  lemma NothingContains()
    ensures !Contains("", TEMP_INFIX)
  {
  }

  /** So the pages of a listing are right whenever the prefix does not mislead, with any
      token, delimiter and page size, and whatever is around the bucket. */
  lemma PageIsRight(disk: Disk, o: Options, all: seq<Blob>)
    requires FileSystem(disk) && WellNamed(disk.root, "") && o.pageSize >= 1
    requires PrefixIsRight(o.prefix) && Enumerates(all, disk.root, o.prefix)
    ensures ToPage(ListPage(disk, o).acc) == IdealPage(o, all)
  {
    hide WellNamed, Misleads, CleanPath, StartPath, Enumerates, IdealPage, FileSystemTree, Tree.Walk, Visit, ReadDir,
         HasPrefix;
    var path := StartPath(o.prefix);
    if CleanPath(path) {
      PrunedWalkIsReference(disk, o, all);
    } else {
      UncleanPrefixHasNoKeys(disk.root, o, all);
      match ReadDir(disk, path)
      case None =>
      case Some(n) =>
        ReadRoot(disk);
        forall b | b in Tree.Walk(n, path)
          ensures !HasPrefix(b.key, o.prefix)
        {
          if HasPrefix(b.key, o.prefix) {
            StrayKey(disk, o.prefix, n, b);
          }
        }
        BlankVisit(o, n, path, Walked(EMPTY, 0));
    }
  }

  /** The pages that a client sees who calls ListPaged again with each token. */
  function WalkedPages(disk: Disk, o: Options, token: string, left: nat): seq<Page>
    requires IsDisk(disk)
    decreases left
  {
    var page := ToPage(ListPage(disk, o.(pageToken := token)).acc);
    if page.nextToken == "" || left == 0 then [page]
    else [page] + WalkedPages(disk, o, page.nextToken, left - 1)
  }

  lemma {:induction false} WalkedPagesAreIdeal(disk: Disk, o: Options, all: seq<Blob>, token: string, left: nat)
    requires FileSystem(disk) && WellNamed(disk.root, "") && o.pageSize >= 1
    requires PrefixIsRight(o.prefix) && Enumerates(all, disk.root, o.prefix)
    ensures WalkedPages(disk, o, token, left) == FollowTokens(o, all, token, left)
    decreases left
  {
    hide WellNamed, PrefixIsRight, Enumerates, FileSystemTree, IdealPage, ListPage, ToPage;
    var at := o.(pageToken := token);
    PageIsRight(disk, at, all);
    var page := ToPage(ListPage(disk, at).acc);
    assert page == IdealPage(at, all);
    if page.nextToken != "" && left > 0 {
      WalkedPagesAreIdeal(disk, o, all, page.nextToken, left - 1);
    }
  }

  /** Listing a bucket page by page, each page a walk of its own, gives the whole
      folded listing: strictly ascending, complete, without repetition, and in
      ceil(n / pageSize) pages. */
  lemma WalkedPagesListAll(disk: Disk, o: Options, all: seq<Blob>)
    requires FileSystem(disk) && WellNamed(disk.root, "") && o.pageSize >= 1
    requires PrefixIsRight(o.prefix) && Enumerates(all, disk.root, o.prefix)
    ensures ObjectsAscend(Results(o, all))
    ensures CutsUp(WalkedPages(disk, o, "", |Results(o, all)|), Results(o, all), o.pageSize)
    ensures (forall x :: x in AllObjects(WalkedPages(disk, o, "", |Results(o, all)|))
                         <==> IsListed(o.prefix, o.delimiter, all, x))
  {
    hide WellNamed, PrefixIsRight, StartPath, Ascending, BlobSet, Results, FileSystemTree, Shown, FollowTokens,
         WalkedPages, IsListed, AllObjects;
    forall b | b in all
      ensures b.key != ""
    {
      NoLeadingSlash(disk.root, b);
    }
    WalkedPagesAreIdeal(disk, o, all, "", |Results(o, all)|);
    FollowingTokensListsAll(o, all);
    forall x
      ensures x in Results(o, all) <==> IsListed(o.prefix, o.delimiter, all, x)
    {
      ResultsAreListed(o, all, x);
    }
  }
}
