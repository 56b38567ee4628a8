/** One page of List results: the rules that emit applies to each candidate key
    (blob/httpblob/webdav.go:429-460, blob/sftpblob/list.go:220-252), and what
    page they make of all the keys of a bucket in order. */
module Listing {
  import opened Strings

  /** A blob as the walk finds it. */
  datatype Blob = Blob(key: string, size: nat)

  /** driver.ListObject: a blob, or a "directory" that stands for many. */
  datatype Object = Object(key: string, isDir: bool, size: nat)

  /** driver.ListOptions, with the default page size filled in. */
  datatype Options = Options(prefix: string, delimiter: string, pageToken: string, pageSize: nat)

  /** driver.ListPage; the empty token says that there is no further page. */
  datatype Page = Page(objects: seq<Object>, nextToken: string)

  /** The fields of a lister that emit updates. */
  datatype Acc = Acc(objects: seq<Object>, lastPrefix: string, full: bool)

  const EMPTY := Acc([], "", false)

  function Plain(b: Blob): Object {
    Object(b.key, false, b.size)
  }

  /** The "directory" that a key with the prefix folds into, if any. */
  function FoldedDir(o: Options, key: string): Option<string>
    requires HasPrefix(key, o.prefix)
  {
    var rest := key[|o.prefix|..];
    if o.delimiter == "" then None
    else
      match Index(rest, o.delimiter)
      case None => None
      case Some(i) => Some(o.prefix + rest[..i + |o.delimiter|])
  }

  /** The token and page size rules. */
  function Offer(o: Options, acc: Acc, obj: Object): Acc {
    if !Beyond(o, obj) then acc
    else if |acc.objects| == o.pageSize then acc.(full := true)
    else acc.(objects := acc.objects + [obj])
  }

  predicate Beyond(o: Options, obj: Object) {
    o.pageToken == "" || !AtMost(obj.key, o.pageToken)
  }

  /** emit: obj is the result to add if the key does not fold; it may be missing. */
  function Emit(o: Options, acc: Acc, key: string, obj: Option<Object>): Acc {
    if !HasPrefix(key, o.prefix) then acc
    else
      match FoldedDir(o, key)
      case Some(dir) =>
        if dir == acc.lastPrefix then acc
        else Offer(o, acc.(lastPrefix := dir), Object(dir, true, 0))
      case None =>
        match obj
        case None => acc
        case Some(x) => Offer(o, acc, x)
  }

  function ToPage(acc: Acc): Page {
    Page(acc.objects, if acc.full && |acc.objects| > 0 then acc.objects[|acc.objects| - 1].key else "")
  }

  /** The reference: every blob goes through emit, and nothing is left out. */
  function EmitAll(o: Options, bs: seq<Blob>): Acc {
    if bs == [] then EMPTY
    else
      var b := bs[|bs| - 1];
      Emit(o, EmitAll(o, bs[..|bs| - 1]), b.key, Some(Plain(b)))
  }

  // ---- what a page should be ----

  /** The result that a blob contributes to. */
  function Result(o: Options, b: Blob): Option<Object> {
    if !HasPrefix(b.key, o.prefix) then None
    else
      match FoldedDir(o, b.key)
      case Some(dir) => Some(Object(dir, true, 0))
      case None => Some(Plain(b))
  }

  /** The whole listing: the results of the blobs, each once. */
  function Results(o: Options, bs: seq<Blob>): seq<Object> {
    if bs == [] then []
    else AddResult(Results(o, bs[..|bs| - 1]), Result(o, bs[|bs| - 1]))
  }

  function AddResult(xs: seq<Object>, r: Option<Object>): seq<Object> {
    match r
    case None => xs
    case Some(x) => if xs != [] && xs[|xs| - 1] == x then xs else xs + [x]
  }

  /** The results behind the page token. */
  function After(o: Options, xs: seq<Object>): seq<Object> {
    if xs == [] then []
    else
      var x := xs[|xs| - 1];
      After(o, xs[..|xs| - 1]) + if Beyond(o, x) then [x] else []
  }

  function Min(a: nat, b: nat): nat {
    if a < b then a else b
  }

  /** The page that the options ask for: the first pageSize results behind the
      token, and a token exactly if there are more. */
  function IdealPage(o: Options, bs: seq<Blob>): Page
    requires o.pageSize >= 1
  {
    var xs := After(o, Results(o, bs));
    Page(xs[..Min(|xs|, o.pageSize)], if |xs| > o.pageSize then xs[o.pageSize - 1].key else "")
  }

  predicate Ascending(bs: seq<Blob>) {
    forall i, j :: 0 <= i < j < |bs| ==> Less(bs[i].key, bs[j].key)
  }

  predicate ObjectsAscend(xs: seq<Object>) {
    forall i, j :: 0 <= i < j < |xs| ==> Less(xs[i].key, xs[j].key)
  }

  lemma ResultsSnoc(o: Options, bs: seq<Blob>, b: Blob)
    ensures Results(o, bs + [b]) == AddResult(Results(o, bs), Result(o, b))
  {
    assert (bs + [b])[..|bs|] == bs;
  }

  lemma AfterSnoc(o: Options, xs: seq<Object>, x: Object)
    ensures After(o, xs + [x]) == After(o, xs) + if Beyond(o, x) then [x] else []
  {
    assert (xs + [x])[..|xs|] == xs;
  }

  /** Two keys fold into the same directory if the first one's text up to the end
      of its first delimiter begins the second one. */
  lemma SameFold(o: Options, k: string, m: string)
    requires HasPrefix(k, o.prefix) && HasPrefix(m, o.prefix)
    requires FoldedDir(o, k).Some? && HasPrefix(m, FoldedDir(o, k).value)
    ensures FoldedDir(o, m) == FoldedDir(o, k)
  {
    var p, d := |o.prefix|, FoldedDir(o, k).value;
    var n := |d| - p;
    assert k[p..][..n] == d[p..];
    assert m[p..][..n] == m[..|d|][p..] == d[p..];
    IndexPrefix(k[p..], m[p..], o.delimiter);
  }

  lemma FoldIsPrefix(o: Options, k: string)
    requires HasPrefix(k, o.prefix) && FoldedDir(o, k).Some?
    ensures HasPrefix(k, FoldedDir(o, k).value) && FoldedDir(o, k).value != ""
  {
    assert k == o.prefix + k[|o.prefix|..];
  }

  /** Folding keeps the order, so equal results lie next to each other. */
  lemma ResultMonotone(o: Options, a: Blob, b: Blob)
    requires Less(a.key, b.key) && Result(o, a).Some? && Result(o, b).Some?
    ensures var x, y := Result(o, a).value, Result(o, b).value;
            Less(x.key, y.key) || (x == y && x.isDir)
  {
    hide Less, Index;
    var x, y := Result(o, a).value, Result(o, b).value;
    if x.isDir {
      FoldIsPrefix(o, a.key);
      PrefixAtMost(x.key, a.key);
    }
    AtMostLess(x.key, a.key, b.key);
    if y.isDir {
      FoldIsPrefix(o, b.key);
      LessTotal(x.key, y.key);
      if AtMost(y.key, x.key) {
        // Then x lies between y and b, so it begins with y, and folds like b.
        PrefixInterval(y.key, x.key, b.key);
        if x.isDir {
          PrefixOfPrefix(a.key, x.key, y.key);
        }
        SameFold(o, b.key, a.key);
      }
    }
  }

  lemma PrefixOfPrefix(s: string, p: string, q: string)
    requires HasPrefix(s, p) && HasPrefix(p, q)
    ensures HasPrefix(s, q)
  {
    assert s[..|q|] == p[..|q|];
  }

  /** A blob behind all of bs contributes a result that is new and behind all
      results so far, or it is the last one again. */
  lemma {:induction false} ResultsBefore(o: Options, bs: seq<Blob>, b: Blob)
    requires Ascending(bs + [b]) && Result(o, b).Some?
    ensures var xs, y := Results(o, bs), Result(o, b).value;
            (forall i :: 0 <= i < |xs| ==> Less(xs[i].key, y.key))
            || (xs != [] && xs[|xs| - 1] == y && y.isDir
                && forall i :: 0 <= i < |xs| - 1 ==> Less(xs[i].key, y.key))
    decreases |bs|
  {
    hide Less, Result;
    var xs, y := Results(o, bs), Result(o, b).value;
    if bs != [] {
      var front, a := bs[..|bs| - 1], bs[|bs| - 1];
      assert bs + [b] == front + [a, b];
      assert Less((bs + [b])[|bs| - 1].key, (bs + [b])[|bs|].key);
      forall i, j | 0 <= i < j < |front + [b]|
        ensures Less((front + [b])[i].key, (front + [b])[j].key)
      {
        assert Less((bs + [b])[i].key, (bs + [b])[if j < |front| then j else |bs|].key);
      }
      if Result(o, a).None? {
        ResultsBefore(o, front, b);
      } else {
        var x := Result(o, a).value;
        ResultMonotone(o, a, b);
        forall i, j | 0 <= i < j < |front + [a]|
          ensures Less((front + [a])[i].key, (front + [a])[j].key)
        {
          assert Less((bs + [b])[i].key, (bs + [b])[j].key);
        }
        ResultsBefore(o, front, a);
        forall i | 0 <= i < |xs| && (i < |xs| - 1 || x != y)
          ensures Less(xs[i].key, y.key)
        {
          if xs[i] != x && Less(x.key, y.key) {
            LessTransitive(xs[i].key, x.key, y.key);
          }
        }
      }
    }
  }

  lemma AscendingFront(bs: seq<Blob>, cs: seq<Blob>)
    requires Ascending(bs + cs)
    ensures Ascending(bs) && Ascending(cs)
  {
    var w := bs + cs;
    forall i, j | 0 <= i < j < |bs| ensures Less(bs[i].key, bs[j].key) {
      assert Less(w[i].key, w[j].key);
    }
    forall i, j | 0 <= i < j < |cs| ensures Less(cs[i].key, cs[j].key) {
      assert Less(w[|bs| + i].key, w[|bs| + j].key);
    }
  }

  /** The listing of keys in strict order is in strict order. */
  lemma {:induction false} ResultsAscend(o: Options, bs: seq<Blob>)
    requires Ascending(bs)
    ensures ObjectsAscend(Results(o, bs))
    decreases |bs|
  {
    hide Less, Result;
    if bs != [] {
      var front, b := bs[..|bs| - 1], bs[|bs| - 1];
      assert bs == front + [b];
      AscendingFront(front, [b]);
      ResultsAscend(o, front);
      if Result(o, b).Some? {
        ResultsBefore(o, front, b);
      }
    }
  }
}
