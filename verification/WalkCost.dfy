/** What a page costs: without a delimiter, the directories read are bounded by the
    page size and the height of the tree, not by the size of the bucket
    (webdav.go:267-272, list.go:32-37). */
module WalkCost {
  import opened Strings
  import opened KeyEscape
  import opened Listing
  import opened Paging
  import opened Reserved
  import opened Tree
  import opened Walk

  /** Levels of directories from n down, n included. */
  function Height(n: Node): nat
    decreases n, 1
  {
    match n
    case File(_, _) => 0
    case Dir(_, kids) => 1 + MaxHeight(n, kids)
  }

  function MaxHeight(n: Node, kids: seq<Node>): nat
    requires Below(kids, n)
    decreases n, 0, |kids|
  {
    if kids == [] then 0
    else
      var h, m := Height(kids[0]), MaxHeight(n, kids[1..]);
      if h > m then h else m
  }

  lemma {:induction false} KidLower(n: Node, kids: seq<Node>, k: Node)
    requires Below(kids, n) && k in kids
    ensures Height(k) <= MaxHeight(n, kids)
    decreases |kids|
  {
    hide Height;
    if k != kids[0] {
      KidLower(n, kids[1..], k);
    }
  }

  /** Every directory below n that is not bookkeeping shows a blob somewhere. */
  predicate NoEmptyDirs(n: Node, path: string)
    decreases n
  {
    n.Dir? ==> forall k :: k in n.kids && k.Dir? && Visible(path, k) ==>
      && WalkKid(k, path) != []
      && NoEmptyDirs(k, ChildPath(path, k.name))
  }

  /** How far the page is: its objects, and one more when it is known to be full. */
  function Progress(acc: Acc): nat {
    |acc.objects| + if acc.full then 1 else 0
  }

  /** 1 if the token lies below the directory with this key prefix. */
  function OnTokenPath(o: Options, keyPrefix: string): nat {
    if o.pageToken != "" && HasPrefix(o.pageToken, keyPrefix) then 1 else 0
  }

  function TokenKids(o: Options, path: string, ks: seq<Node>): nat {
    if ks == [] then 0
    else (if ks[0].Dir? then OnTokenPath(o, SortKey(path, ks[0])) else 0) + TokenKids(o, path, ks[1..])
  }

  // ---- progress ----

  lemma {:induction false} MoreResults(o: Options, bs: seq<Blob>, ks: seq<Blob>)
    requires o.delimiter == ""
    ensures |After(o, Results(o, bs + ks))| >= |After(o, Results(o, bs))|
    ensures ks != [] && (forall k :: k in ks ==> HasPrefix(k.key, o.prefix) && Beyond(o, Plain(k))) && Ascending(bs + ks)
        ==> |After(o, Results(o, bs + ks))| > |After(o, Results(o, bs))|
    decreases |ks|
  {
    hide Beyond, Results, After, Less;
    if ks == [] {
      assert bs + ks == bs;
    } else {
      var front, k := ks[..|ks| - 1], ks[|ks| - 1];
      MoreResults(o, bs, front);
      assert bs + ks == (bs + front) + [k];
      ResultsSnoc(o, bs + front, k);
      if HasPrefix(k.key, o.prefix) {
        AfterSnoc(o, Results(o, bs + front), Plain(k));
      }
      assert k in ks;
      if Ascending(bs + ks) && HasPrefix(k.key, o.prefix) {
        ResultsBefore(o, bs + front, k);
        LessIrreflexive(k.key);
      }
    }
  }

  lemma ProgressIsCount(o: Options, acc: Acc, bs: seq<Blob>)
    requires Good(o, acc, bs)
    ensures Progress(acc) == Min(|After(o, Results(o, bs))|, o.pageSize + 1)
  {
    hide After, Results;
  }

  /** The walk never loses progress, and gains some where a key qualifies. */
  lemma ProgressGrows(o: Options, a: Acc, c: Acc, bs: seq<Blob>, ks: seq<Blob>)
    requires o.delimiter == "" && Good(o, a, bs) && Good(o, c, bs + ks) && Ascending(bs + ks)
    ensures Progress(a) <= Progress(c) <= o.pageSize + 1
    ensures !a.full && ks != [] && (forall k :: k in ks ==> HasPrefix(k.key, o.prefix) && Beyond(o, Plain(k)))
        ==> Progress(a) < Progress(c)
  {
    hide Beyond, Ascending, Good, After, Results;
    MoreResults(o, bs, ks);
    ProgressIsCount(o, a, bs);
    ProgressIsCount(o, c, bs + ks);
    NotFullCount(o, a, bs);
  }

  lemma NotFullCount(o: Options, acc: Acc, bs: seq<Blob>)
    requires Good(o, acc, bs)
    ensures !acc.full ==> |After(o, Results(o, bs))| <= o.pageSize
  {
  }

  // ---- the token's path ----

  /** At most one entry of a directory holds the token, and none does unless the
      directory itself does. */
  lemma {:induction false} OneTokenKid(o: Options, path: string, ks: seq<Node>)
    requires SortedByKey(path, ks) && forall k :: k in ks ==> GoodKid(path, k)
    ensures TokenKids(o, path, ks) <= OnTokenPath(o, KeyPrefix(path))
    decreases |ks|
  {
    hide SortKey, KeyPrefix, GoodKid, Less;
    if ks != [] {
      var k := ks[0];
      assert k in ks;
      OneTokenKid(o, path, ks[1..]);
      if k.Dir? && OnTokenPath(o, SortKey(path, k)) == 1 {
        SortKeyExtends(path, k);
        PrefixOfPrefix(o.pageToken, SortKey(path, k), KeyPrefix(path));
        NoOtherTokenKid(o, path, k, ks[1..]);
      }
    }
  }

  lemma SortKeyExtends(path: string, k: Node)
    requires GoodKid(path, k)
    ensures HasPrefix(SortKey(path, k), KeyPrefix(path))
  {
    hide UnescapeKey, EscapeKey, IsInternalPath, WellNamed;
    KidKey(path, k);
    var u := UnescapeKey(k.name);
    assert SortKey(path, k)[..|KeyPrefix(path)|] == KeyPrefix(path);
  }

  lemma {:induction false} NoOtherTokenKid(o: Options, path: string, k: Node, ks: seq<Node>)
    requires k.Dir? && GoodKid(path, k) && HasPrefix(o.pageToken, SortKey(path, k))
    requires forall m :: m in ks ==> GoodKid(path, m) && Less(SortKey(path, k), SortKey(path, m))
    ensures TokenKids(o, path, ks) == 0
    decreases |ks|
  {
    hide SortKey, KeyPrefix, GoodKid, Less;
    if ks != [] {
      var m := ks[0];
      assert m in ks;
      NoOtherTokenKid(o, path, k, ks[1..]);
      if m.Dir? && HasPrefix(o.pageToken, SortKey(path, m)) {
        PrefixesOverlap(o.pageToken, SortKey(path, k), SortKey(path, m));
        DirSortKeysDiffer(path, k, m);
      }
    }
  }

  lemma DirSortKeysDiffer(path: string, k: Node, m: Node)
    requires k.Dir? && m.Dir? && GoodKid(path, k) && GoodKid(path, m)
    requires Less(SortKey(path, k), SortKey(path, m))
    ensures !HasPrefix(SortKey(path, k), SortKey(path, m)) && !HasPrefix(SortKey(path, m), SortKey(path, k))
  {
    hide UnescapeKey, EscapeKey, IsInternalPath, WellNamed, SortKey, KeyPrefix, Less;
    KidKey(path, k);
    KidKey(path, m);
    LessIrreflexive(SortKey(path, k));
    var p, u, v := KeyPrefix(path), UnescapeKey(k.name), UnescapeKey(m.name);
    if HasPrefix(SortKey(path, k), SortKey(path, m)) {
      DirBeginsSortKey(p, v, u, "/");
    }
    if HasPrefix(SortKey(path, m), SortKey(path, k)) {
      DirBeginsSortKey(p, u, v, "/");
    }
  }

  // ---- the bound ----

  /** The prefix does not go on through a subdirectory. */
  predicate PrefixReached(o: Options, path: string) {
    forall m :: |KeyPrefix(path)| < m < |o.prefix| && HasPrefix(o.prefix, KeyPrefix(path)) ==> o.prefix[m] != '/'
  }

  /** So a directory entered there has only keys with the prefix, and those are
      beyond the token unless the token lies below it. */
  lemma EnteredQualifies(o: Options, path: string, k: Node, b: Blob)
    requires k.Dir? && GoodKid(path, k) && PrefixReached(o, path) && b in WalkKid(k, path)
    requires Descends(o, SortKey(path, k))
    ensures PrefixReached(o, ChildPath(path, k.name))
    ensures OnTokenPath(o, SortKey(path, k)) == 0 ==> HasPrefix(b.key, o.prefix) && Beyond(o, Plain(b))
  {
    hide UnescapeKey, EscapeKey, IsInternalPath, WellNamed, SortKey, Less, KeyPrefix, WalkKid;
    KidKey(path, k);
    KidBeneath(k, path, b);
    var sub, p, x := SortKey(path, k), KeyPrefix(path), o.prefix;
    assert sub[|sub| - 1] == '/';
    if HasPrefix(x, sub) {
      PrefixOfPrefix(x, sub, p);
    }
    PrefixOfPrefix(b.key, sub, x);
    if OnTokenPath(o, sub) == 0 && o.pageToken != "" {
      LessTotal(sub, o.pageToken);
      PrefixAtMost(sub, b.key);
      LessAtMost(o.pageToken, sub, b.key);
      LessAsymmetric(o.pageToken, b.key);
    }
  }

  lemma CostStep(cost: nat, h: nat, gain: nat)
    requires cost <= 1 + h * gain && gain >= 1
    ensures cost <= (h + 1) * gain
  {
    assert (h + 1) * gain == h * gain + gain;
  }

  lemma CostMonotone(cost: nat, g: nat, h: nat, gain: nat)
    requires cost <= g * gain && g <= h
    ensures cost <= h * gain
  {
    assert h * gain == g * gain + (h - g) * gain;
  }

  lemma CostAdd(a: nat, b: nat, h: nat, x: nat, y: nat, z: nat)
    requires a <= h * x && b <= h * y && z == x + y
    ensures a + b <= h * z
  {
    assert h * (x + y) == h * x + h * y;
  }

  predicate CostSetting(o: Options, path: string, w: Walked, bs: seq<Blob>, ks: seq<Blob>) {
    o.delimiter == "" && Good(o, w.acc, bs) && Ascending(bs + ks) && PrefixReached(o, path)
  }

  lemma {:induction false} VisitCost(o: Options, n: Node, path: string, w: Walked, bs: seq<Blob>)
    requires n.Dir? && WellNamed(n, path) && NoEmptyDirs(n, path)
    requires CostSetting(o, path, w, bs, Tree.Walk(n, path))
    ensures var v := Visit(o, n, path, w);
            && v.dirsRead >= w.dirsRead && Progress(v.acc) >= Progress(w.acc)
            && v.dirsRead - w.dirsRead
               <= 1 + (Height(n) - 1) * (Progress(v.acc) - Progress(w.acc) + OnTokenPath(o, KeyPrefix(path)))
    decreases n, 1
  {
    hide UnescapeKey, EscapeKey, IsInternalPath, Good, Ascending, KeyPrefix, Less, SortKey, Visit,
         PrefixReached, WalkKid, WalkKids, Height, NoEmptyDirs, WellNamed, VisitKids, TokenKids, OnTokenPath, Progress;
    var ks := Children(path, n.kids);
    ChildrenBelow(n, path);
    WellNamedKids(n, path);
    WellNamedSorted(n, path);
    KidsBounded(n, path);
    var w1 := w.(dirsRead := w.dirsRead + 1);
    VisitKidsCost(o, n, ks, path, w1, bs, Height(n) - 1);
    OneTokenKid(o, path, ks);
    VisitIsKids(o, n, path, w);
    var gain := Progress(VisitKids(o, n, ks, path, w1).acc) - Progress(w.acc);
    GainMonotone(Height(n) - 1, gain + TokenKids(o, path, ks), gain + OnTokenPath(o, KeyPrefix(path)));
  }

  lemma WellNamedSorted(n: Node, path: string)
    requires n.Dir? && WellNamed(n, path)
    ensures SortedByKey(path, Children(path, n.kids))
  {
    hide UnescapeKey, EscapeKey, IsInternalPath, SortKey, Less;
    SortSorted(path, VisibleKids(path, n.kids));
  }

  lemma KidsBounded(n: Node, path: string)
    requires n.Dir? && NoEmptyDirs(n, path)
    ensures Height(n) >= 1
    ensures forall k :: k in Children(path, n.kids) ==>
              && Height(k) <= Height(n) - 1
              && NoEmptyDirs(k, ChildPath(path, k.name))
              && (k.Dir? ==> WalkKid(k, path) != [])
  {
    hide UnescapeKey, IsInternalPath, WalkKid;
    AllBelow(n);
    forall k | k in Children(path, n.kids)
      ensures Height(k) <= Height(n) - 1
    {
      KidLower(n, n.kids, k);
    }
  }

  lemma VisitIsKids(o: Options, n: Node, path: string, w: Walked)
    requires n.Dir? && Below(Children(path, n.kids), n)
    ensures Visit(o, n, path, w) == VisitKids(o, n, Children(path, n.kids), path, w.(dirsRead := w.dirsRead + 1))
  {
    hide VisitKids, Children;
  }

  lemma GainMonotone(h: nat, a: nat, b: nat)
    requires a <= b
    ensures h * a <= h * b
  {
  }

  /** What some entries of a directory cost: each one's height for each gain, and for the
      token's path. */
  predicate KidsCost(o: Options, ks: seq<Node>, path: string, w: Walked, v: Walked, h: nat) {
    && v.dirsRead >= w.dirsRead && Progress(v.acc) >= Progress(w.acc)
    && v.dirsRead - w.dirsRead <= h * (Progress(v.acc) - Progress(w.acc) + TokenKids(o, path, ks))
  }

  lemma NoKidsCost(o: Options, ks: seq<Node>, path: string, w: Walked, h: nat)
    ensures KidsCost(o, ks, path, w, w, h)
  {
    hide Progress, TokenKids;
    assert 0 <= h * TokenKids(o, path, ks);
  }

  lemma MoreKidsCost(o: Options, ks: seq<Node>, path: string, w: Walked, u: Walked, v: Walked, h: nat)
    requires ks != [] && KidsCost(o, ks[1..], path, u, v, h)
    requires u.dirsRead >= w.dirsRead && Progress(u.acc) >= Progress(w.acc)
    requires var t := if ks[0].Dir? then OnTokenPath(o, SortKey(path, ks[0])) else 0;
             u.dirsRead - w.dirsRead <= h * (Progress(u.acc) - Progress(w.acc) + t)
    ensures KidsCost(o, ks, path, w, v, h)
  {
    hide Progress, OnTokenPath, SortKey;
    var t := if ks[0].Dir? then OnTokenPath(o, SortKey(path, ks[0])) else 0;
    CostAdd(u.dirsRead - w.dirsRead, v.dirsRead - u.dirsRead, h,
            Progress(u.acc) - Progress(w.acc) + t,
            Progress(v.acc) - Progress(u.acc) + TokenKids(o, path, ks[1..]),
            Progress(v.acc) - Progress(w.acc) + TokenKids(o, path, ks));
  }

  lemma {:induction false} VisitKidsCost(o: Options, n: Node, ks: seq<Node>, path: string, w: Walked, bs: seq<Blob>, h: nat)
    requires Below(ks, n) && forall k :: k in ks ==> GoodKid(path, k)
    requires forall k :: k in ks ==> Height(k) <= h && NoEmptyDirs(k, ChildPath(path, k.name))
    requires forall k :: k in ks && k.Dir? ==> WalkKid(k, path) != []
    requires CostSetting(o, path, w, bs, WalkKids(n, ks, path))
    ensures KidsCost(o, ks, path, w, VisitKids(o, n, ks, path, w), h)
    decreases n, 0, |ks|
  {
    hide GoodKid, Good, Ascending, VisitKid, WalkKid, Height, NoEmptyDirs, SortKey, OnTokenPath, PrefixReached, Progress,
         KidsCost;
    if ks == [] || w.acc.full {
      NoKidsCost(o, ks, path, w, h);
    } else {
      var k := ks[0];
      assert k in ks;
      var xs, ys := WalkKid(k, path), WalkKids(n, ks[1..], path);
      assert bs + (xs + ys) == (bs + xs) + ys;
      AscendingFront(bs + xs, ys);
      var u := VisitKid(o, k, path, w);
      VisitKidGood(o, k, path, w, bs);
      VisitKidCost(o, k, path, w, bs, h);
      VisitKidsCost(o, n, ks[1..], path, u, bs + xs, h);
      MoreKidsCost(o, ks, path, w, u, VisitKids(o, n, ks[1..], path, u), h);
    }
  }

  lemma {:induction false} VisitKidCost(o: Options, k: Node, path: string, w: Walked, bs: seq<Blob>, h: nat)
    requires GoodKid(path, k) && NoEmptyDirs(k, ChildPath(path, k.name)) && Height(k) <= h && !w.acc.full
    requires k.Dir? ==> WalkKid(k, path) != []
    requires CostSetting(o, path, w, bs, WalkKid(k, path))
    ensures var v := VisitKid(o, k, path, w);
            && v.dirsRead >= w.dirsRead && Progress(v.acc) >= Progress(w.acc)
            && v.dirsRead - w.dirsRead
               <= h * (Progress(v.acc) - Progress(w.acc) + if k.Dir? then OnTokenPath(o, SortKey(path, k)) else 0)
    decreases k, 2
  {
    hide UnescapeKey, EscapeKey, IsInternalPath, WellNamed, GoodName, Visible, Good, Ascending, KeyPrefix,
         SortKey, Visit, Descends, PrefixReached, Emit, Probe, OnTokenPath, Progress, NoEmptyDirs;
    var v, ks := VisitKid(o, k, path, w), WalkKid(k, path);
    VisitKidGood(o, k, path, w, bs);
    ProgressGrows(o, w.acc, v.acc, bs, ks);
    if k.Dir? {
      DirSortKey(path, k);
      if Descends(o, SortKey(path, k)) {
        assert ks[0] in ks;
        EnteredQualifies(o, path, k, ks[0]);
        forall b | b in ks
          ensures OnTokenPath(o, SortKey(path, k)) == 0 ==> HasPrefix(b.key, o.prefix) && Beyond(o, Plain(b))
        {
          EnteredQualifies(o, path, k, b);
        }
        KidKey(path, k);
        VisitCost(o, k, ChildPath(path, k.name), w, bs);
        var gain := Progress(v.acc) - Progress(w.acc) + OnTokenPath(o, SortKey(path, k));
        TokenBit(o, SortKey(path, k));
        CostStep(v.dirsRead - w.dirsRead, Height(k) - 1, gain);
        CostMonotone(v.dirsRead - w.dirsRead, Height(k), h, gain);
      } else {
        ZeroCost(h, Progress(v.acc) - Progress(w.acc) + OnTokenPath(o, SortKey(path, k)));
      }
    } else {
      ZeroCost(h, Progress(v.acc) - Progress(w.acc));
    }
  }

  lemma ZeroCost(h: nat, gain: nat)
    ensures 0 <= h * gain
  {
  }

  lemma TokenBit(o: Options, p: string)
    ensures OnTokenPath(o, p) == 0 || OnTokenPath(o, p) == 1
  {
  }

  lemma DirSortKey(path: string, k: Node)
    requires k.Dir?
    ensures SortKey(path, k) == UnescapeKey(ChildPath(path, k.name)) + "/"
  {
    hide UnescapeKey;
  }

  // ---- with the delimiter of the hierarchy ----

  /** Where no directory is empty, hasKey goes straight down to the first blob. */
  lemma {:induction false} ProbeCost(n: Node, path: string)
    requires n.Dir? && NoEmptyDirs(n, path) && Tree.Walk(n, path) != []
    ensures Probe(n, path).dirsRead <= Height(n)
    decreases n
  {
    hide UnescapeKey, IsInternalPath, SortKey, WalkKid, Height;
    KidsBounded(n, path);
    ChildrenBelow(n, path);
    VisibleBelow(n, path);
    var vs, ks := VisibleKids(path, n.kids), Children(path, n.kids);
    if !HasFile(vs) {
      WalkMember(n, ks, path, Tree.Walk(n, path)[0]);
      var k := vs[0];
      assert k in vs && k in ks;
      WalkOfDir(k, path);
      ProbeFinds(k, ChildPath(path, k.name));
      ProbeCost(k, ChildPath(path, k.name));
    }
  }

  lemma WalkOfDir(k: Node, path: string)
    requires k.Dir?
    ensures WalkKid(k, path) == Tree.Walk(k, ChildPath(path, k.name))
  {
  }

  /** The prefix ends in this directory, or in the name of an entry. */
  predicate PrefixIsHere(o: Options, path: string) {
    HasPrefix(o.prefix, KeyPrefix(path)) && PrefixReached(o, path)
  }

  lemma FirstSlash(rest: string)
    requires forall m :: 0 <= m < |rest| - 1 ==> rest[m] != '/'
    ensures Index(rest, "/") == if rest != "" && rest[|rest| - 1] == '/' then Some(|rest| - 1) else None
  {
    forall i
      ensures OccursAt(rest, "/", i) <==> 0 <= i < |rest| && rest[i] == '/'
    {
      assert 0 <= i < |rest| ==> rest[i..i + 1] == [rest[i]];
    }
  }

  /** Behind the prefix an entry's key has the slash of a directory only. */
  lemma SlashAtEnd(o: Options, path: string, k: Node)
    requires GoodKid(path, k) && PrefixIsHere(o, path) && o.delimiter == "/" && HasPrefix(SortKey(path, k), o.prefix)
    ensures k.File? ==> FoldedDir(o, SortKey(path, k)) == None
    ensures k.Dir? && |SortKey(path, k)| > |o.prefix| ==> FoldedDir(o, SortKey(path, k)) == Some(SortKey(path, k))
  {
    hide UnescapeKey, EscapeKey, IsInternalPath, WellNamed, KeyPrefix, PrefixReached, SortKey, Index, FoldedDir;
    KidKey(path, k);
    var sub := SortKey(path, k);
    OnlyLastSlash(sub, KeyPrefix(path), UnescapeKey(k.name), k.Dir?, |o.prefix|);
    FirstSlash(sub[|o.prefix|..]);
    FoldsAtEnd(o, sub);
  }

  lemma OnlyLastSlash(sub: string, p: string, u: string, slash: bool, from: nat)
    requires sub == p + u + (if slash then "/" else "") && |p| <= from <= |sub| && '/' !in u
    ensures var rest := sub[from..];
            && (forall m :: 0 <= m < |rest| - 1 ==> rest[m] != '/')
            && (rest != "" ==> (rest[|rest| - 1] == '/' <==> slash))
  {
    assert forall m :: |p| <= m < |p| + |u| ==> sub[m] == u[m - |p|] && u[m - |p|] in u;
  }

  lemma FoldsAtEnd(o: Options, sub: string)
    requires HasPrefix(sub, o.prefix) && o.delimiter == "/"
    requires var rest := sub[|o.prefix|..];
             Index(rest, "/") == if rest != "" && rest[|rest| - 1] == '/' then Some(|rest| - 1) else None
    ensures var rest := sub[|o.prefix|..];
            FoldedDir(o, sub) == if rest != "" && rest[|rest| - 1] == '/' then Some(sub) else None
  {
    hide Index;
    var rest := sub[|o.prefix|..];
    assert o.prefix + rest == sub && rest[..|rest|] == rest;
  }

  lemma NotThrough(o: Options, p: string, sub: string)
    requires |p| < |sub| - 1 && sub[|sub| - 1] == '/'
    requires forall m :: |p| < m < |o.prefix| ==> o.prefix[m] != '/'
    ensures !HasPrefix(o.prefix, sub)
  {
    assert |sub| <= |o.prefix| ==> o.prefix[|sub| - 1] != '/';
  }

  /** So each directory that is looked into collapses. */
  lemma DirCollapses(o: Options, path: string, k: Node)
    requires k.Dir? && GoodKid(path, k) && PrefixIsHere(o, path) && o.delimiter == "/"
    requires Descends(o, SortKey(path, k))
    ensures var sub := SortKey(path, k);
            Collapses(o, sub) && HasPrefix(sub, o.prefix) && FoldedDir(o, sub) == Some(sub)
  {
    hide UnescapeKey, EscapeKey, IsInternalPath, WellNamed, KeyPrefix, FoldedDir, SortKey, GoodName;
    KidKey(path, k);
    var sub, p, u := SortKey(path, k), KeyPrefix(path), UnescapeKey(k.name);
    assert sub == p + u + "/" && |p| < |sub| - 1;
    NotThrough(o, p, sub);
    SlashAtEnd(o, path, k);
  }

  lemma CollapsedKidCost(o: Options, k: Node, path: string, w: Walked, h: nat)
    requires GoodKid(path, k) && NoEmptyDirs(k, ChildPath(path, k.name)) && Height(k) <= h && !w.acc.full
    requires k.Dir? ==> WalkKid(k, path) != []
    requires PrefixIsHere(o, path) && o.delimiter == "/" && w.acc.lastPrefix != SortKey(path, k)
    ensures var v := VisitKid(o, k, path, w);
            && v.dirsRead >= w.dirsRead && Progress(v.acc) >= Progress(w.acc)
            && v.dirsRead - w.dirsRead
               <= h * (Progress(v.acc) - Progress(w.acc) + if k.Dir? then OnTokenPath(o, SortKey(path, k)) else 0)
            && (v.acc.lastPrefix == w.acc.lastPrefix || v.acc.lastPrefix == SortKey(path, k))
  {
    hide UnescapeKey, EscapeKey, IsInternalPath, WellNamed, Visible, KeyPrefix, Height, NoEmptyDirs, Probe, Visit, PrefixReached,
         FoldedDir, Less, Collapses, WalkKid;
    var sub := SortKey(path, k);
    if k.File? {
      FileSortKey(path, k);
      if HasPrefix(sub, o.prefix) {
        SlashAtEnd(o, path, k);
      }
      ZeroCost(h, Progress(VisitKid(o, k, path, w).acc) - Progress(w.acc));
    } else {
      DirSortKey(path, k);
      if Descends(o, sub) {
        DirCollapses(o, path, k);
        WalkOfDir(k, path);
        ProbeFinds(k, ChildPath(path, k.name));
        ProbeCost(k, ChildPath(path, k.name));
        DirEmits(o, w.acc, sub);
        var gain := Progress(VisitKid(o, k, path, w).acc) - Progress(w.acc) + OnTokenPath(o, sub);
        OneProbe(Probe(k, ChildPath(path, k.name)).dirsRead, h, gain);
      } else {
        ZeroCost(h, OnTokenPath(o, sub));
      }
    }
  }

  lemma FileSortKey(path: string, k: Node)
    requires k.File?
    ensures SortKey(path, k) == UnescapeKey(ChildPath(path, k.name))
  {
    hide UnescapeKey;
    assert UnescapeKey(ChildPath(path, k.name)) + "" == UnescapeKey(ChildPath(path, k.name));
  }

  lemma OneProbe(cost: nat, h: nat, gain: nat)
    requires cost <= h && gain >= 1
    ensures cost <= h * gain
  {
  }

  /** A directory that is found counts for the page, unless the token is in it. */
  lemma DirEmits(o: Options, acc: Acc, sub: string)
    requires Descends(o, sub) && HasPrefix(sub, o.prefix) && FoldedDir(o, sub) == Some(sub)
    requires !acc.full && acc.lastPrefix != sub
    ensures var e := Emit(o, acc, sub, None);
            && e.lastPrefix == sub && Progress(e) >= Progress(acc)
            && (Progress(e) > Progress(acc) || OnTokenPath(o, sub) == 1)
  {
    hide FoldedDir, Less;
    LessTotal(sub, o.pageToken);
  }

  lemma {:induction false} CollapsedKidsCost(o: Options, n: Node, ks: seq<Node>, path: string, w: Walked, h: nat)
    requires Below(ks, n) && SortedByKey(path, ks) && forall k :: k in ks ==> GoodKid(path, k)
    requires forall k :: k in ks ==> Height(k) <= h && NoEmptyDirs(k, ChildPath(path, k.name))
    requires forall k :: k in ks && k.Dir? ==> WalkKid(k, path) != []
    requires PrefixIsHere(o, path) && o.delimiter == "/"
    requires forall k :: k in ks ==> w.acc.lastPrefix != SortKey(path, k)
    ensures KidsCost(o, ks, path, w, VisitKids(o, n, ks, path, w), h)
    decreases |ks|
  {
    hide GoodKid, VisitKid, WalkKid, Height, NoEmptyDirs, SortKey, OnTokenPath, PrefixIsHere, Progress, KidsCost, Less;
    if ks == [] || w.acc.full {
      NoKidsCost(o, ks, path, w, h);
    } else {
      var k := ks[0];
      assert k in ks;
      var u := VisitKid(o, k, path, w);
      CollapsedKidCost(o, k, path, w, h);
      forall x | x in ks[1..]
        ensures u.acc.lastPrefix != SortKey(path, x)
      {
        var i :| 0 <= i < |ks| - 1 && ks[1..][i] == x;
        assert Less(SortKey(path, ks[0]), SortKey(path, ks[i + 1]));
        LessIrreflexive(SortKey(path, x));
      }
      CollapsedKidsCost(o, n, ks[1..], path, u, h);
      MoreKidsCost(o, ks, path, w, u, VisitKids(o, n, ks[1..], path, u), h);
    }
  }

  lemma CollapsedVisitCost(o: Options, n: Node, path: string)
    requires n.Dir? && WellNamed(n, path) && NoEmptyDirs(n, path) && PrefixIsHere(o, path) && o.delimiter == "/"
    ensures var v := Visit(o, n, path, Walked(EMPTY, 0));
            v.dirsRead <= 1 + (Height(n) - 1) * (Progress(v.acc) + OnTokenPath(o, KeyPrefix(path)))
  {
    hide UnescapeKey, EscapeKey, IsInternalPath, KeyPrefix, Less, SortKey, Visit, PrefixIsHere, WalkKid, Height,
         NoEmptyDirs, WellNamed, VisitKids, TokenKids, OnTokenPath;
    var ks := Children(path, n.kids);
    ChildrenBelow(n, path);
    WellNamedKids(n, path);
    WellNamedSorted(n, path);
    KidsBounded(n, path);
    forall k | k in ks
      ensures SortKey(path, k) != ""
    {
      SortKeyNotEmpty(path, k);
    }
    CollapsedKidsCost(o, n, ks, path, Walked(EMPTY, 1), Height(n) - 1);
    OneTokenKid(o, path, ks);
    VisitIsKids(o, n, path, Walked(EMPTY, 0));
    var gain := Progress(VisitKids(o, n, ks, path, Walked(EMPTY, 1)).acc);
    GainMonotone(Height(n) - 1, gain + TokenKids(o, path, ks), gain + OnTokenPath(o, KeyPrefix(path)));
  }

  lemma SortKeyNotEmpty(path: string, k: Node)
    requires GoodKid(path, k)
    ensures SortKey(path, k) != ""
  {
    hide UnescapeKey, EscapeKey, IsInternalPath, WellNamed, KeyPrefix, SortKey;
    KidKey(path, k);
  }

  /** One page without a delimiter, or with the one of the hierarchy, in a bucket without
      empty directories, cost at most 1 + h * (pageSize + 2) directories, where h is the
      height of the tree below the start directory: however many blobs the bucket holds. */
  lemma PageCost(disk: Disk, o: Options, n: Node)
    requires IsDisk(disk) && WellNamed(disk.root, "") && CleanPath(StartPath(o.prefix))
    requires ReadDir(disk, StartPath(o.prefix)) == Some(n) && NoEmptyDirs(n, StartPath(o.prefix))
    requires o.delimiter == "" || o.delimiter == "/"
    ensures ListPage(disk, o).dirsRead <= 1 + (Height(n) - 1) * (o.pageSize + 2)
  {
    hide WellNamed, UnescapeKey, ReadDir, CleanPath, NoEmptyDirs, Tree.Walk, Good, Visit, Less, Ascending, StartPath,
         PrefixReached, KeyPrefix, OnTokenPath, Height, After, Results;
    var p := StartPath(o.prefix);
    DirHeight(n);
    if StartKey(o.prefix).Some? && UnescapeKey(p) != StartKey(o.prefix).value {
      SplicedStartCost(disk, o, n);
      ZeroCost(Height(n) - 1, o.pageSize + 2);
    } else {
      ReadDirInTree(disk, p);
      WalkAscends(n, p);
      GoodStart(o);
      assert [] + Tree.Walk(n, p) == Tree.Walk(n, p);
      StartReached(o);
      if o.delimiter == "" {
        VisitCost(o, n, p, Walked(EMPTY, 0), []);
      } else {
        StartIsHere(o);
        CollapsedVisitCost(o, n, p);
      }
      VisitGood(o, n, p, Walked(EMPTY, 0), []);
      var v := Visit(o, n, p, Walked(EMPTY, 0));
      ProgressIsCount(o, v.acc, Tree.Walk(n, p));
      TokenBit(o, KeyPrefix(p));
      assert Progress(EMPTY) == 0;
      GainMonotone(Height(n) - 1, Progress(v.acc) + OnTokenPath(o, KeyPrefix(p)), o.pageSize + 2);
    }
  }

  lemma StartIsHere(o: Options)
    requires StartKey(o.prefix).Some? ==> UnescapeKey(StartPath(o.prefix)) == StartKey(o.prefix).value
    ensures HasPrefix(o.prefix, KeyPrefix(StartPath(o.prefix)))
  {
    hide UnescapeKey, EscapeKey;
    if StartKey(o.prefix).Some? {
      var k := StartKey(o.prefix).value;
      assert k + "/" == o.prefix[..|k| + 1];
    }
  }

  /** A start key that does not survive escaping: no directory of its own has the prefix,
      or lies on the way to it. */
  lemma SplicedStartEnters(disk: Disk, o: Options, n: Node, k: Node)
    requires IsDisk(disk) && WellNamed(disk.root, "") && CleanPath(StartPath(o.prefix))
    requires ReadDir(disk, StartPath(o.prefix)) == Some(n)
    requires StartKey(o.prefix).Some? && UnescapeKey(StartPath(o.prefix)) != StartKey(o.prefix).value
    requires k.Dir? && k in n.kids && Visible(StartPath(o.prefix), k) && WalkKid(k, StartPath(o.prefix)) != []
    ensures !Descends(o, SortKey(StartPath(o.prefix), k))
  {
    hide UnescapeKey, EscapeKey, IsInternalPath, ReadDir, CleanPath, StartPath, StartKey, WalkKid, SortKey, BlobSet,
         DistinctSortKeys, Tree.Walk, HasPrefix;
    var p := StartPath(o.prefix);
    var b := WalkKid(k, p)[0];
    ReadDirInTree(disk, p);
    assert GoodName(p, k) && WellNamed(k, ChildPath(p, k.name));
    KidKey(p, k);
    KidBeneath(k, p, b);
    var sub := SortKey(p, k);
    if HasPrefix(sub, o.prefix) {
      PrefixOfPrefix(b.key, sub, o.prefix);
      BlobOfKid(n, p, k, b);
      StartHoldsPrefix(disk, o.prefix, b);
    } else if HasPrefix(o.prefix, sub) {
      EnteredIsShorter(o.prefix, p, KeyPrefix(p) + UnescapeKey(k.name), ChildPath(p, k.name), UnescapeKey(k.name));
    }
  }

  lemma BlobOfKid(n: Node, p: string, k: Node, b: Blob)
    requires n.Dir? && WellNamed(n, p) && k in n.kids && Visible(p, k) && b in WalkKid(k, p)
    ensures b in BlobSet(n, p)
  {
    hide UnescapeKey, WellNamed, WalkKid, IsInternalPath, BlobSet;
    ChildrenBelow(n, p);
    WalkMember(n, Children(p, n.kids), p, b);
    WalkFindsAll(n, p, b);
  }

  /** A directory whose key the prefix goes through has a path that is no longer than the
      start directory's. */
  lemma EnteredIsShorter(prefix: string, p: string, key: string, path: string, u: string)
    requires StartKey(prefix).Some? && p == StartPath(prefix)
    requires HasPrefix(prefix, key + "/") && EscapeKey(key) == path && |key| >= |u| > 0 && '/' !in u
    requires key[|key| - |u|..] == u
    ensures |path| <= |p|
  {
    hide EscapeKey;
    var start := StartKey(prefix).value;
    var t := key + "/";
    assert prefix[..|t|] == t && t[|key|] == '/' && prefix[|key|] == '/';
    assert |key| <= |start| by {
      var rest := prefix[|start| + 1..];
      assert forall i :: |start| < i < |prefix| ==> prefix[i] == rest[i - |start| - 1] && prefix[i] in rest;
    }
    assert key == start[..|key|];
    assert key[|key| - 1] == u[|u| - 1] && u[|u| - 1] in u;
    EscapeKeyGrows(key, start);
  }

  lemma {:induction false} NoneEntered(o: Options, n: Node, ks: seq<Node>, path: string, w: Walked)
    requires Below(ks, n) && forall k :: k in ks && k.Dir? ==> !Descends(o, SortKey(path, k))
    ensures VisitKids(o, n, ks, path, w).dirsRead == w.dirsRead
    decreases |ks|
  {
    hide UnescapeKey, SortKey, Descends, Emit;
    if ks != [] && !w.acc.full {
      assert ks[0] in ks;
      if ks[0].Dir? {
        DirSortKey(path, ks[0]);
      }
      NoneEntered(o, n, ks[1..], path, VisitKid(o, ks[0], path, w));
    }
  }

  lemma SplicedStartCost(disk: Disk, o: Options, n: Node)
    requires IsDisk(disk) && WellNamed(disk.root, "") && CleanPath(StartPath(o.prefix))
    requires ReadDir(disk, StartPath(o.prefix)) == Some(n) && NoEmptyDirs(n, StartPath(o.prefix))
    requires StartKey(o.prefix).Some? && UnescapeKey(StartPath(o.prefix)) != StartKey(o.prefix).value
    ensures ListPage(disk, o).dirsRead == 1
  {
    hide UnescapeKey, ReadDir, CleanPath, StartPath, StartKey, WalkKid, SortKey, WellNamed, Descends, VisitKids, Visible,
         EscapeKey;
    var p := StartPath(o.prefix);
    var ks := Children(p, n.kids);
    ChildrenBelow(n, p);
    forall k | k in ks && k.Dir?
      ensures !Descends(o, SortKey(p, k))
    {
      SplicedStartEnters(disk, o, n, k);
    }
    NoneEntered(o, n, ks, p, Walked(EMPTY, 1));
    VisitIsKids(o, n, p, Walked(EMPTY, 0));
  }

  lemma DirHeight(n: Node)
    requires n.Dir?
    ensures Height(n) >= 1
  {
  }

  lemma StartReached(o: Options)
    requires StartKey(o.prefix).Some? ==> UnescapeKey(StartPath(o.prefix)) == StartKey(o.prefix).value
    ensures PrefixReached(o, StartPath(o.prefix))
  {
    hide UnescapeKey, EscapeKey;
    var x := o.prefix;
    match StartKey(x)
    case None =>
      assert forall m :: 0 <= m < |x| ==> x[m] in x;
    case Some(k) =>
      var p := EscapeKey(k);
      if p == "" {
        EscapeKeyEmpty();
      }
      assert forall m :: |k| < m < |x| ==> x[|k| + 1..][m - |k| - 1] == x[m] && x[m] in x[|k| + 1..];
  }
}
