/** What a page of List results holds, said without any of the functions that compute
    it: which keys fold, into what, and which results are on the page
    (blob/httpblob/webdav.go:429-495, blob/sftpblob/list.go:220-287). */
module Pages {
  import opened Strings
  import opened Listing
  import opened Paging

  /** A delimiter ends at position e of the key, all of it behind the prefix. */
  predicate DelimiterEnds(prefix: string, delimiter: string, key: string, e: nat) {
    |prefix| + |delimiter| <= e <= |key| && key[e - |delimiter|..e] == delimiter
  }

  /** The key has the prefix, and no delimiter behind it: it is listed as itself. */
  ghost predicate StaysWhole(prefix: string, delimiter: string, key: string) {
    prefix <= key && (delimiter == "" || forall e: nat :: !DelimiterEnds(prefix, delimiter, key, e))
  }

  /** The directory dir stands for the key: it is the shortest beginning of the key that
      has the prefix and behind that a delimiter at its end. */
  ghost predicate StandsFor(prefix: string, delimiter: string, key: string, dir: string) {
    && prefix <= key && delimiter != "" && dir <= key
    && DelimiterEnds(prefix, delimiter, key, |dir|)
    && forall e: nat :: e < |dir| ==> !DelimiterEnds(prefix, delimiter, key, e)
  }

  /** What a listing is to hold: blobs, with their sizes, and directories. */
  ghost predicate IsListed(prefix: string, delimiter: string, bs: seq<Blob>, x: Object) {
    exists b :: b in bs && Contributes(prefix, delimiter, b, x)
  }

  ghost predicate Contributes(prefix: string, delimiter: string, b: Blob, x: Object) {
    if x.isDir then StandsFor(prefix, delimiter, b.key, x.key) && x.size == 0
    else StaysWhole(prefix, delimiter, b.key) && x.key == b.key && x.size == b.size
  }

  /** The result is behind the page token. */
  predicate IsBehind(token: string, x: Object) {
    token == "" || Less(token, x.key)
  }

  /** The page that belongs to a listing request: results behind the token, in strictly
      ascending order, as many as there are but no more than pageSize, the first ones;
      and the last one's key as token for the next page, if and only if there are more. */
  ghost predicate IsPage(prefix: string, delimiter: string, token: string, pageSize: nat, bs: seq<Blob>, page: Page) {
    var xs := page.objects;
    && (forall i, j :: 0 <= i < j < |xs| ==> Less(xs[i].key, xs[j].key))
    && (forall i :: 0 <= i < |xs| ==> IsListed(prefix, delimiter, bs, xs[i]) && IsBehind(token, xs[i]))
    && |xs| <= pageSize
    && (forall x :: IsListed(prefix, delimiter, bs, x) && IsBehind(token, x) && x !in xs ==>
          && |xs| == pageSize && (forall i :: 0 <= i < |xs| ==> Less(xs[i].key, x.key)))
    && (if exists x :: IsListed(prefix, delimiter, bs, x) && IsBehind(token, x) && x !in xs
        then xs != [] && page.nextToken == xs[|xs| - 1].key
        else page.nextToken == "")
  }

  // ---- the results are what is to be listed ----

  /** A delimiter ends in the key where it ends in what is behind the prefix. */
  lemma EndsBehind(prefix: string, delimiter: string, key: string, i: nat)
    requires prefix <= key && delimiter != ""
    ensures OccursAt(key[|prefix|..], delimiter, i) <==> DelimiterEnds(prefix, delimiter, key, |prefix| + i + |delimiter|)
  {
    var rest := key[|prefix|..];
    if i + |delimiter| <= |rest| {
      assert rest[i..i + |delimiter|] == key[|prefix| + i..|prefix| + i + |delimiter|];
    }
  }

  /** There is one such directory at most. */
  lemma StandsForOne(prefix: string, delimiter: string, key: string, d: string, e: string)
    requires StandsFor(prefix, delimiter, key, d) && StandsFor(prefix, delimiter, key, e)
    ensures d == e
  {
    hide DelimiterEnds;
    assert |d| == |e|;
    assert d == key[..|d|] && e == key[..|e|];
  }

  /** The search for the first delimiter finds it. */
  lemma FoldIs(o: Options, key: string)
    requires HasPrefix(key, o.prefix) && o.delimiter != ""
    ensures match FoldedDir(o, key)
            case None => StaysWhole(o.prefix, o.delimiter, key)
            case Some(dir) => StandsFor(o.prefix, o.delimiter, key, dir)
  {
    hide Index, OccursAt, DelimiterEnds;
    var p, d, rest := o.prefix, o.delimiter, key[|o.prefix|..];
    forall e: nat | DelimiterEnds(p, d, key, e)
      ensures e >= |p| + |d| && OccursAt(rest, d, e - |p| - |d|)
    {
      EndsFits(p, d, key, e);
      EndsBehind(p, d, key, e - |p| - |d|);
    }
    if Index(rest, d).Some? {
      var i := Index(rest, d).value;
      EndsBehind(p, d, key, i);
      EndsFits(p, d, key, |p| + i + |d|);
      assert p + rest[..i + |d|] == key[..|p| + i + |d|];
    }
  }

  lemma NotBoth(prefix: string, delimiter: string, key: string, dir: string)
    requires StandsFor(prefix, delimiter, key, dir)
    ensures !StaysWhole(prefix, delimiter, key)
  {
    hide DelimiterEnds;
  }

  lemma ContributesIff(o: Options, b: Blob, x: Object)
    ensures Contributes(o.prefix, o.delimiter, b, x) <==> Result(o, b) == Some(x)
  {
    hide DelimiterEnds;
    if HasPrefix(b.key, o.prefix) && o.delimiter != "" {
      FoldIs(o, b.key);
      match FoldedDir(o, b.key)
      case None =>
        if x.isDir && StandsFor(o.prefix, o.delimiter, b.key, x.key) {
          NotBoth(o.prefix, o.delimiter, b.key, x.key);
        }
      case Some(dir) =>
        NotBoth(o.prefix, o.delimiter, b.key, dir);
        if x.isDir && StandsFor(o.prefix, o.delimiter, b.key, x.key) {
          StandsForOne(o.prefix, o.delimiter, b.key, dir, x.key);
        }
    }
  }

  lemma EndsFits(prefix: string, delimiter: string, key: string, e: nat)
    requires DelimiterEnds(prefix, delimiter, key, e)
    ensures |prefix| + |delimiter| <= e <= |key|
  {
  }

  lemma {:induction false} ResultsAreListed(o: Options, bs: seq<Blob>, x: Object)
    ensures x in Results(o, bs) <==> IsListed(o.prefix, o.delimiter, bs, x)
    decreases |bs|
  {
    hide Contributes, Result;
    if bs != [] {
      var front, b := bs[..|bs| - 1], bs[|bs| - 1];
      ResultsAreListed(o, front, x);
      ContributesIff(o, b, x);
      assert bs == front + [b];
    }
  }

  // ---- and so the page is the one to be given ----

  lemma BehindIsBeyond(o: Options, x: Object)
    ensures IsBehind(o.pageToken, x) <==> Beyond(o, x)
  {
    hide Less;
    LessTotal(o.pageToken, x.key);
    if Less(o.pageToken, x.key) {
      LessAsymmetric(o.pageToken, x.key);
    }
  }

  lemma {:induction false} AfterIs(o: Options, xs: seq<Object>, x: Object)
    ensures x in After(o, xs) <==> x in xs && Beyond(o, x)
    decreases |xs|
  {
    hide Beyond;
    if xs != [] {
      AfterIs(o, xs[..|xs| - 1], x);
      assert xs == xs[..|xs| - 1] + [xs[|xs| - 1]];
    }
  }

  lemma {:induction false} AfterAscends(o: Options, xs: seq<Object>)
    requires ObjectsAscend(xs)
    ensures ObjectsAscend(After(o, xs))
    decreases |xs|
  {
    hide Beyond, Less;
    if xs != [] {
      var front, x := xs[..|xs| - 1], xs[|xs| - 1];
      AfterAscends(o, front);
      forall i | 0 <= i < |After(o, front)|
        ensures Less(After(o, front)[i].key, x.key)
      {
        AfterIs(o, front, After(o, front)[i]);
        var j :| 0 <= j < |front| && front[j] == After(o, front)[i];
        assert xs[j] == front[j];
      }
    }
  }

  /** The page cut from the folded listing holds just what it should. */
  lemma IdealPageIsPage(o: Options, bs: seq<Blob>)
    requires Ascending(bs) && o.pageSize >= 1
    ensures IsPage(o.prefix, o.delimiter, o.pageToken, o.pageSize, bs, IdealPage(o, bs))
  {
    hide After, Results, IsListed, IsBehind, Less, Ascending;
    var ys := After(o, Results(o, bs));
    ResultsAscend(o, bs);
    AfterAscends(o, Results(o, bs));
    forall x ensures x in ys <==> IsListed(o.prefix, o.delimiter, bs, x) && IsBehind(o.pageToken, x) {
      AfterIs(o, Results(o, bs), x);
      ResultsAreListed(o, bs, x);
      BehindIsBeyond(o, x);
    }
    CutIsPage(o, bs, ys);
  }

  lemma CutIsPage(o: Options, bs: seq<Blob>, ys: seq<Object>)
    requires o.pageSize >= 1 && ObjectsAscend(ys)
    requires forall x :: x in ys <==> IsListed(o.prefix, o.delimiter, bs, x) && IsBehind(o.pageToken, x)
    ensures var page := Page(ys[..Min(|ys|, o.pageSize)], if |ys| > o.pageSize then ys[o.pageSize - 1].key else "");
            IsPage(o.prefix, o.delimiter, o.pageToken, o.pageSize, bs, page)
  {
    hide IsListed, IsBehind, Less;
    var xs := ys[..Min(|ys|, o.pageSize)];
    assert forall i :: 0 <= i < |xs| ==> xs[i] == ys[i] && ys[i] in xs;
    forall i | 0 <= i < |xs|
      ensures IsListed(o.prefix, o.delimiter, bs, xs[i]) && IsBehind(o.pageToken, xs[i])
    {
      assert ys[i] in ys;
    }
    forall x | x in ys && x !in xs
      ensures |xs| == o.pageSize && forall i :: 0 <= i < |xs| ==> Less(xs[i].key, x.key)
    {
      var j :| 0 <= j < |ys| && ys[j] == x;
    }
    if |ys| > o.pageSize {
      var x := ys[o.pageSize];
      forall i | 0 <= i < |xs|
        ensures xs[i] != x
      {
        assert Less(ys[i].key, ys[o.pageSize].key);
        LessIrreflexive(x.key);
      }
      assert x in ys && x !in xs;
    }
  }

  /** And there is no other page that does. */
  lemma PageUnique(prefix: string, delimiter: string, token: string, pageSize: nat, bs: seq<Blob>, p: Page, q: Page)
    requires IsPage(prefix, delimiter, token, pageSize, bs, p) && IsPage(prefix, delimiter, token, pageSize, bs, q)
    ensures p == q
  {
    hide IsListed, IsBehind, Less;
    SameObjects(prefix, delimiter, token, pageSize, bs, p, q, 0);
  }

  lemma {:induction false} SameObjects(prefix: string, delimiter: string, token: string, pageSize: nat, bs: seq<Blob>,
                                       p: Page, q: Page, n: nat)
    requires IsPage(prefix, delimiter, token, pageSize, bs, p) && IsPage(prefix, delimiter, token, pageSize, bs, q)
    requires n <= |p.objects| && n <= |q.objects| && p.objects[..n] == q.objects[..n]
    ensures p.objects == q.objects
    decreases |p.objects| - n
  {
    hide IsListed, IsBehind, IsPage;
    if n < |p.objects| && n < |q.objects| {
      NextSame(prefix, delimiter, token, pageSize, bs, p, q, n);
      assert p.objects[..n + 1] == p.objects[..n] + [p.objects[n]];
      assert q.objects[..n + 1] == q.objects[..n] + [q.objects[n]];
      SameObjects(prefix, delimiter, token, pageSize, bs, p, q, n + 1);
    } else if n < |p.objects| {
      NothingMore(prefix, delimiter, token, pageSize, bs, p, q);
    } else if n < |q.objects| {
      NothingMore(prefix, delimiter, token, pageSize, bs, q, p);
    }
  }

  /** Of two such pages none is the beginning of the other. */
  lemma NothingMore(prefix: string, delimiter: string, token: string, pageSize: nat, bs: seq<Blob>, p: Page, q: Page)
    requires IsPage(prefix, delimiter, token, pageSize, bs, p) && IsPage(prefix, delimiter, token, pageSize, bs, q)
    requires q.objects <= p.objects
    ensures p.objects == q.objects
  {
    hide IsListed, IsBehind, Less;
    var xs, n := p.objects, |q.objects|;
    if n < |xs| {
      forall i | 0 <= i < n
        ensures q.objects[i] != xs[n]
      {
        assert Less(xs[i].key, xs[n].key);
        LessIrreflexive(xs[n].key);
      }
    }
  }

  /** Where both have a next object, neither comes before the other. */
  lemma NotBefore(prefix: string, delimiter: string, token: string, pageSize: nat, bs: seq<Blob>, p: Page, q: Page, n: nat)
    requires IsPage(prefix, delimiter, token, pageSize, bs, p) && IsPage(prefix, delimiter, token, pageSize, bs, q)
    requires n < |p.objects| && n < |q.objects| && p.objects[..n] == q.objects[..n]
    ensures p.objects[n] == q.objects[n] || Less(q.objects[n].key, p.objects[n].key)
  {
    hide IsListed, IsBehind, Less;
    var xs, ys := p.objects, q.objects;
    if xs[n] in ys {
      var m :| 0 <= m < |ys| && ys[m] == xs[n];
      if m < n {
        assert ys[..n][m] == xs[..n][m];
        assert Less(xs[m].key, xs[n].key);
        LessIrreflexive(xs[n].key);
      }
    }
  }

  lemma NextSame(prefix: string, delimiter: string, token: string, pageSize: nat, bs: seq<Blob>, p: Page, q: Page, n: nat)
    requires IsPage(prefix, delimiter, token, pageSize, bs, p) && IsPage(prefix, delimiter, token, pageSize, bs, q)
    requires n < |p.objects| && n < |q.objects| && p.objects[..n] == q.objects[..n]
    ensures p.objects[n] == q.objects[n]
  {
    hide IsPage, Less;
    var x, y := p.objects[n], q.objects[n];
    NotBefore(prefix, delimiter, token, pageSize, bs, p, q, n);
    NotBefore(prefix, delimiter, token, pageSize, bs, q, p, n);
    if x != y {
      LessAsymmetric(x.key, y.key);
    }
  }
}
