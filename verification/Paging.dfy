/** Why it is sound to build a page from less than all keys: what one emit, a
    skipped subtree and a collapsed subtree do to the page so far.  And why
    following the page tokens gives the whole listing. */
module Paging {
  import opened Arithmetic
  import opened Strings
  import opened Listing

  /** The lister has seen bs: its page is the ideal one for bs, and the one
      directory that it remembers is the only one that can come again. */
  predicate Good(o: Options, acc: Acc, bs: seq<Blob>) {
    GoodFor(o, acc, Results(o, bs))
  }

  predicate GoodFor(o: Options, acc: Acc, xs: seq<Object>) {
    var ys := After(o, xs);
    && acc.objects == ys[..Min(|ys|, o.pageSize)]
    && acc.full == (|ys| > o.pageSize)
    && (!acc.full ==> Remembers(o, acc.lastPrefix, xs))
  }

  predicate Remembers(o: Options, lastPrefix: string, xs: seq<Object>) {
    && (lastPrefix == "" || exists i :: 0 <= i < |xs| && xs[i].isDir && xs[i].key == lastPrefix)
    && (xs != [] && xs[|xs| - 1].isDir && Beyond(o, xs[|xs| - 1]) ==> lastPrefix == xs[|xs| - 1].key)
  }

  lemma GoodStart(o: Options)
    ensures Good(o, EMPTY, [])
  {
  }

  lemma GoodPage(o: Options, acc: Acc, bs: seq<Blob>)
    requires Good(o, acc, bs) && o.pageSize >= 1
    ensures ToPage(acc) == IdealPage(o, bs)
  {
  }

  lemma RememberedStays(o: Options, p: string, xs: seq<Object>, y: Object)
    requires Remembers(o, p, xs) && (y.isDir && Beyond(o, y) ==> p == y.key)
    ensures Remembers(o, p, xs + [y])
  {
    if p != "" {
      var i :| 0 <= i < |xs| && xs[i].isDir && xs[i].key == p;
      assert (xs + [y])[i] == xs[i];
    }
  }

  /** One blob goes through emit. */
  lemma EmitGood(o: Options, acc: Acc, bs: seq<Blob>, b: Blob)
    requires Good(o, acc, bs) && Ascending(bs + [b])
    ensures Good(o, Emit(o, acc, b.key, Some(Plain(b))), bs + [b])
  {
    hide Less, FoldedDir, After, Results, Remembers;
    var xs := Results(o, bs);
    ResultsSnoc(o, bs, b);
    if Result(o, b).Some? {
      var y := Result(o, b).value;
      ResultsBefore(o, bs, b);
      if y.isDir {
        FoldIsPrefix(o, b.key);
      }
      assert Emit(o, acc, b.key, Some(Plain(b))) == Take(o, acc, y);
      if xs != [] && xs[|xs| - 1] == y {
        if y.isDir {
          RepeatGood(o, acc, xs, y);
        } else {
          LessIrreflexive(y.key);
        }
      } else {
        NewGood(o, acc, xs, y);
      }
    }
  }

  /** What emit makes of a result. */
  function Take(o: Options, acc: Acc, y: Object): Acc {
    if y.isDir then (if y.key == acc.lastPrefix then acc else Offer(o, acc.(lastPrefix := y.key), y))
    else Offer(o, acc, y)
  }

  lemma RepeatGood(o: Options, acc: Acc, xs: seq<Object>, y: Object)
    requires GoodFor(o, acc, xs) && xs != [] && xs[|xs| - 1] == y && y.isDir
    ensures GoodFor(o, Take(o, acc, y), xs)
  {
    var ys := After(o, xs);
    if !acc.full && y.key != acc.lastPrefix {
      assert !Beyond(o, y);
      assert xs[|xs| - 1].isDir && xs[|xs| - 1].key == y.key;
    }
  }

  lemma NewGood(o: Options, acc: Acc, xs: seq<Object>, y: Object)
    requires GoodFor(o, acc, xs) && (y.isDir ==> y.key != "")
    requires forall i :: 0 <= i < |xs| ==> Less(xs[i].key, y.key)
    ensures GoodFor(o, Take(o, acc, y), xs + [y])
  {
    hide After;
    AfterSnoc(o, xs, y);
    forall i | 0 <= i < |xs|
      ensures xs[i].key != y.key
    {
      LessIrreflexive(y.key);
    }
    if !acc.full {
      if y.isDir {
        assert y.key != acc.lastPrefix;
        assert (xs + [y])[|xs|] == y;
      } else {
        RememberedStays(o, acc.lastPrefix, xs, y);
      }
    }
  }

  /** Once the page is full, further keys change nothing. */
  lemma {:induction false} FullGood(o: Options, acc: Acc, bs: seq<Blob>, ks: seq<Blob>)
    requires Good(o, acc, bs) && acc.full
    ensures Good(o, acc, bs + ks)
    decreases |ks|
  {
    hide After, Results, Beyond, Result;
    if ks == [] {
      assert bs + ks == bs;
    } else {
      var front, b := ks[..|ks| - 1], ks[|ks| - 1];
      FullGood(o, acc, bs, front);
      assert bs + ks == (bs + front) + [b];
      ResultsSnoc(o, bs + front, b);
      if Result(o, b).Some? {
        AfterSnoc(o, Results(o, bs + front), Result(o, b).value);
      }
    }
  }

  /** Keys with no result, or with one at or before the token, may be left out. */
  lemma SkipOneGood(o: Options, acc: Acc, bs: seq<Blob>, b: Blob)
    requires Good(o, acc, bs)
    requires Result(o, b).Some? ==> !Beyond(o, Result(o, b).value)
    ensures Good(o, acc, bs + [b])
  {
    hide After, Results, Beyond, Result;
    ResultsSnoc(o, bs, b);
    if Result(o, b).Some? {
      var xs, y := Results(o, bs), Result(o, b).value;
      AfterSnoc(o, xs, y);
      if !acc.full {
        RememberedStays(o, acc.lastPrefix, xs, y);
      }
    }
  }

  lemma {:induction false} SkipGood(o: Options, acc: Acc, bs: seq<Blob>, ks: seq<Blob>)
    requires Good(o, acc, bs)
    requires forall k :: k in ks && Result(o, k).Some? ==> !Beyond(o, Result(o, k).value)
    ensures Good(o, acc, bs + ks)
    decreases |ks|
  {
    hide Good, Beyond, Result;
    if ks == [] {
      assert bs + ks == bs;
    } else {
      var front, b := ks[..|ks| - 1], ks[|ks| - 1];
      SkipGood(o, acc, bs, front);
      SkipOneGood(o, acc, bs + front, b);
      assert bs + ks == (bs + front) + [b];
    }
  }

  /** Keys that repeat the last result may be left out. */
  lemma {:induction false} RepeatsGood(o: Options, acc: Acc, bs: seq<Blob>, ks: seq<Blob>, y: Object)
    requires Good(o, acc, bs)
    requires Results(o, bs) != [] && Results(o, bs)[|Results(o, bs)| - 1] == y
    requires forall k :: k in ks ==> Result(o, k) == Some(y)
    ensures Results(o, bs + ks) == Results(o, bs) && Good(o, acc, bs + ks)
    decreases |ks|
  {
    hide Results, Result;
    if ks == [] {
      assert bs + ks == bs;
    } else {
      var front, b := ks[..|ks| - 1], ks[|ks| - 1];
      assert b in ks;
      RepeatsGood(o, acc, bs, front, y);
      ResultsSnoc(o, bs + front, b);
      assert bs + ks == (bs + front) + [b];
    }
  }

  // ---- pruning ----

  /** Can the keys that begin with sub still contribute to the page?
      (webdav.go:465-477, list.go:257-269) */
  predicate Descends(o: Options, sub: string) {
    && (HasPrefix(sub, o.prefix) || HasPrefix(o.prefix, sub))
    && !(o.pageToken != "" && AtMost(sub, o.pageToken) && !HasPrefix(o.pageToken, sub))
  }

  /** Do all keys that begin with sub fold into one directory?
      (webdav.go:483-486, list.go:275-278) */
  predicate Collapses(o: Options, sub: string) {
    o.delimiter == "/" && HasPrefix(sub, o.prefix) && |sub| > |o.prefix|
  }

  predicate AllBeneath(ks: seq<Blob>, sub: string) {
    forall k :: k in ks ==> HasPrefix(k.key, sub)
  }

  lemma PrefixesOverlap(s: string, p: string, q: string)
    requires HasPrefix(s, p) && HasPrefix(s, q)
    ensures HasPrefix(p, q) || HasPrefix(q, p)
  {
    if |q| <= |p| {
      assert p == s[..|p|] && q == s[..|p|][..|q|];
    } else {
      assert q == s[..|q|] && p == s[..|q|][..|p|];
    }
  }

  /** No key of a subtree that descend refuses has a result beyond the token. */
  lemma RefusedSubtree(o: Options, sub: string, k: Blob)
    requires !Descends(o, sub) && HasPrefix(k.key, sub) && Result(o, k).Some?
    ensures !Beyond(o, Result(o, k).value)
  {
    hide Less, FoldedDir;
    PrefixesOverlap(k.key, o.prefix, sub);
    var y, t := Result(o, k).value, o.pageToken;
    if y.isDir {
      FoldIsPrefix(o, k.key);
      PrefixAtMost(y.key, k.key);
    }
    assert Less(sub, t) && !HasPrefix(t, sub);
    PrefixAtMost(t, t);
    LessExtends(sub, t, k.key, t);
    AtMostLess(y.key, k.key, t);
  }

  /** The search for the delimiter ends inside a collapsing directory's name. */
  lemma CollapsedFold(o: Options, sub: string, key: string)
    requires Collapses(o, sub) && sub[|sub| - 1] == '/' && HasPrefix(key, sub)
    ensures HasPrefix(key, o.prefix)
    ensures FoldedDir(o, sub).Some? && FoldedDir(o, key) == FoldedDir(o, sub)
  {
    hide Index;
    assert o.prefix == key[..|sub|][..|o.prefix|];
    var rest := sub[|o.prefix|..];
    assert rest[|rest| - 1..] == "/" == o.delimiter;
    assert OccursAt(rest, o.delimiter, |rest| - 1);
    assert Index(rest, o.delimiter).Some?;
    FoldIsPrefix(o, sub);
    var d := FoldedDir(o, sub).value;
    assert key[..|d|] == key[..|sub|][..|d|] == d;
    SameFold(o, sub, key);
  }

  /** A collapsing subtree with keys in it may be replaced by one emit. */
  lemma CollapseGood(o: Options, acc: Acc, bs: seq<Blob>, ks: seq<Blob>, sub: string)
    requires Good(o, acc, bs) && Ascending(bs + ks) && ks != []
    requires sub != "" && sub[|sub| - 1] == '/' && Collapses(o, sub) && AllBeneath(ks, sub)
    ensures Good(o, Emit(o, acc, sub, None), bs + ks)
  {
    hide Less, FoldedDir, Results, Good, AddResult;
    var b := ks[0];
    assert b in ks;
    assert bs + ks == (bs + [b]) + ks[1..];
    AscendingFront(bs + [b], ks[1..]);
    EmitGood(o, acc, bs, b);
    CollapsedFold(o, sub, b.key);
    CollapsedFold(o, sub, sub);
    assert Emit(o, acc, sub, None) == Emit(o, acc, b.key, Some(Plain(b)));
    var y := Result(o, b).value;
    forall k | k in ks[1..]
      ensures Result(o, k) == Some(y)
    {
      assert k in ks;
      CollapsedFold(o, sub, k.key);
    }
    ResultsSnoc(o, bs, b);
    AddedIsLast(Results(o, bs), y);
    RepeatsGood(o, Emit(o, acc, sub, None), bs + [b], ks[1..], y);
  }

  lemma AddedIsLast(xs: seq<Object>, y: Object)
    ensures var zs := AddResult(xs, Some(y)); zs != [] && zs[|zs| - 1] == y
  {
  }

  /** The reference state is good, so its page is the ideal page. */
  lemma {:induction false} EmitAllGood(o: Options, bs: seq<Blob>)
    requires Ascending(bs)
    ensures Good(o, EmitAll(o, bs), bs)
    decreases |bs|
  {
    hide Good, Emit, Less;
    if bs == [] {
      GoodStart(o);
    } else {
      var front, b := bs[..|bs| - 1], bs[|bs| - 1];
      assert bs == front + [b];
      AscendingFront(front, [b]);
      EmitAllGood(o, front);
      EmitGood(o, EmitAll(o, front), front, b);
    }
  }

  /** Feeding every key to emit, with one remembered directory and a stop at a
      full page, gives the first pageSize results behind the token. */
  lemma ReferencePage(o: Options, bs: seq<Blob>)
    requires Ascending(bs) && o.pageSize >= 1
    ensures ToPage(EmitAll(o, bs)) == IdealPage(o, bs)
  {
    EmitAllGood(o, bs);
    GoodPage(o, EmitAll(o, bs), bs);
  }

  // ---- following the tokens ----

  lemma {:induction false} AfterConcat(o: Options, xs: seq<Object>, ys: seq<Object>)
    ensures After(o, xs + ys) == After(o, xs) + After(o, ys)
    decreases |ys|
  {
    hide Beyond;
    if ys == [] {
      assert xs + ys == xs && After(o, xs) + [] == After(o, xs);
    } else {
      var front, y := ys[..|ys| - 1], ys[|ys| - 1];
      assert xs + ys == (xs + front) + [y];
      AfterSnoc(o, xs + front, y);
      AfterConcat(o, xs, front);
    }
  }

  lemma {:induction false} AfterAll(o: Options, xs: seq<Object>)
    requires forall i :: 0 <= i < |xs| ==> Beyond(o, xs[i])
    ensures After(o, xs) == xs
    decreases |xs|
  {
    hide Beyond;
    if xs != [] {
      AfterAll(o, xs[..|xs| - 1]);
      assert xs == xs[..|xs| - 1] + [xs[|xs| - 1]];
    }
  }

  lemma {:induction false} AfterNothing(o: Options, xs: seq<Object>)
    requires forall i :: 0 <= i < |xs| ==> !Beyond(o, xs[i])
    ensures After(o, xs) == []
    decreases |xs|
  {
    hide Beyond;
    if xs != [] {
      AfterNothing(o, xs[..|xs| - 1]);
    }
  }

  /** In an ascending listing the token of an object leaves what is behind it. */
  lemma AfterToken(o: Options, xs: seq<Object>, i: nat)
    requires ObjectsAscend(xs) && i < |xs| && xs[i].key != "" && o.pageToken == xs[i].key
    ensures After(o, xs) == xs[i + 1..]
  {
    hide Less, After;
    forall j | 0 <= j < |xs|
      ensures Beyond(o, xs[j]) <==> j > i
    {
      if j > i {
        LessAsymmetric(xs[i].key, xs[j].key);
      }
    }
    assert xs == xs[..i + 1] + xs[i + 1..];
    AfterConcat(o, xs[..i + 1], xs[i + 1..]);
    AfterNothing(o, xs[..i + 1]);
    AfterAll(o, xs[i + 1..]);
  }

  /** The pages that a client sees who starts at token and follows the tokens;
      left bounds their number. */
  function FollowTokens(o: Options, bs: seq<Blob>, token: string, left: nat): seq<Page>
    requires o.pageSize >= 1
    decreases left
  {
    var page := IdealPage(o.(pageToken := token), bs);
    if page.nextToken == "" || left == 0 then [page]
    else [page] + FollowTokens(o, bs, page.nextToken, left - 1)
  }

  function AllObjects(pages: seq<Page>): seq<Object> {
    if pages == [] then [] else pages[0].objects + AllObjects(pages[1..])
  }

  predicate NoEmptyKeys(bs: seq<Blob>) {
    forall b :: b in bs ==> b.key != ""
  }

  lemma {:induction false} ResultKeysNotEmpty(o: Options, bs: seq<Blob>)
    requires NoEmptyKeys(bs)
    ensures forall i :: 0 <= i < |Results(o, bs)| ==> Results(o, bs)[i].key != ""
    decreases |bs|
  {
    if bs != [] {
      var b := bs[|bs| - 1];
      ResultKeysNotEmpty(o, bs[..|bs| - 1]);
      if HasPrefix(b.key, o.prefix) && FoldedDir(o, b.key).Some? {
        FoldIsPrefix(o, b.key);
      }
    }
  }

  /** pages are the results ys cut up: every page but the last one is full and has
      a token, and there are no more pages than needed. */
  predicate CutsUp(pages: seq<Page>, ys: seq<Object>, pageSize: nat)
    requires pageSize >= 1
  {
    && AllObjects(pages) == ys
    && |pages| == (if ys == [] then 1 else CeilDiv(|ys|, pageSize))
    && pages[|pages| - 1].nextToken == ""
    && forall i :: 0 <= i < |pages| - 1 ==> pages[i].nextToken != "" && |pages[i].objects| == pageSize
  }

  lemma CutsUpMore(page: Page, rest: seq<Page>, ys: seq<Object>, pageSize: nat)
    requires 1 <= pageSize < |ys| && page.objects == ys[..pageSize] && page.nextToken != ""
    requires CutsUp(rest, ys[pageSize..], pageSize)
    ensures CutsUp([page] + rest, ys, pageSize)
  {
    hide CeilDiv;
    CeilDivStep(|ys|, pageSize);
    MorePages(page, rest);
    assert ys == ys[..pageSize] + ys[pageSize..];
  }

  lemma {:induction false} FollowFrom(o: Options, bs: seq<Blob>, token: string, done: nat, left: nat)
    requires o.pageSize >= 1 && Ascending(bs) && NoEmptyKeys(bs)
    requires done <= |Results(o, bs)| <= left + done
    requires After(o.(pageToken := token), Results(o, bs)) == Results(o, bs)[done..]
    ensures CutsUp(FollowTokens(o, bs, token, left), Results(o, bs)[done..], o.pageSize)
    decreases left
  {
    hide After, Results, CeilDiv, Less, AllObjects, CutsUp, Ascending, NoEmptyKeys;
    var xs := Results(o, bs);
    ResultsAscend(o, bs);
    ResultKeysNotEmpty(o, bs);
    SameResults(o, token, bs);
    var page := IdealPage(o.(pageToken := token), bs);
    var ys := xs[done..];
    if |ys| <= o.pageSize {
      assert page == Page(ys, "");
      LastPageCutsUp(page, o.pageSize);
    } else {
      var last := done + o.pageSize - 1;
      assert page == Page(ys[..o.pageSize], xs[last].key);
      AfterToken(o.(pageToken := xs[last].key), xs, last);
      FollowFrom(o, bs, xs[last].key, last + 1, left - 1);
      assert xs[last + 1..] == ys[o.pageSize..];
      CutsUpMore(page, FollowTokens(o, bs, xs[last].key, left - 1), ys, o.pageSize);
    }
  }

  lemma LastPageCutsUp(page: Page, pageSize: nat)
    requires pageSize >= 1 && |page.objects| <= pageSize && page.nextToken == ""
    ensures CutsUp([page], page.objects, pageSize)
  {
    hide CeilDiv;
    LastPage(page);
    CeilDivStep(|page.objects|, pageSize);
  }

  lemma LastPage(page: Page)
    ensures AllObjects([page]) == page.objects
  {
    assert [page][1..] == [] && page.objects + [] == page.objects;
  }

  lemma MorePages(page: Page, rest: seq<Page>)
    ensures AllObjects([page] + rest) == page.objects + AllObjects(rest)
  {
    assert ([page] + rest)[1..] == rest;
  }

  lemma {:induction false} SameResults(o: Options, token: string, bs: seq<Blob>)
    ensures Results(o.(pageToken := token), bs) == Results(o, bs)
    decreases |bs|
  {
    if bs != [] {
      SameResults(o, token, bs[..|bs| - 1]);
    }
  }

  /** From the empty token, the pages together are the whole folded listing: in
      strictly ascending order, nothing missing and nothing twice, every page but
      the last one full, and ceil(n / pageSize) pages for n > 0 results. */
  lemma FollowingTokensListsAll(o: Options, bs: seq<Blob>)
    requires o.pageSize >= 1 && Ascending(bs) && NoEmptyKeys(bs)
    ensures ObjectsAscend(Results(o, bs))
    ensures CutsUp(FollowTokens(o, bs, "", |Results(o, bs)|), Results(o, bs), o.pageSize)
  {
    hide After, Results, CeilDiv, Less;
    var xs := Results(o, bs);
    ResultsAscend(o, bs);
    AfterAll(o.(pageToken := ""), xs);
    assert xs[0..] == xs;
    FollowFrom(o, bs, "", 0, |xs|);
  }
}
