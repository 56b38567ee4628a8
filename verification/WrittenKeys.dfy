/** Which keys the tree of written blobs takes, and which writes it refuses, said
    without the functions that build it (blob/httpblob/webdav.go:273-294,
    internal/escape/key.go:32-56). */
module WrittenKeys {
  import opened Strings
  import opened Escape
  import opened KeyEscape
  import opened Reserved
  import opened Tree
  import opened WrittenTree

  // ---- which keys ----

  /** A segment of a key that names an entry of its own and reads back. */
  predicate IsSegment(s: string, last: bool) {
    && s != "" && '/' !in s && s != "." && s != ".."
    && (last || |s| < 2 || s[|s| - 2..] != "..")
    && UnescapeKey(EscapeKey(s)) == s
  }

  predicate AreSegments(segments: seq<string>) {
    forall i :: 0 <= i < |segments| ==> IsSegment(segments[i], i == |segments| - 1)
  }

  function Names(segments: seq<string>): (names: seq<string>)
    ensures |names| == |segments|
  {
    if segments == [] then [] else [EscapeKey(segments[0])] + Names(segments[1..])
  }

  lemma SegmentIff(s: string, last: bool)
    ensures GoodSegment(s, last) <==> IsSegment(s, last)
  {
    hide EscapeKey, UnescapeKey, KeyNoSplice;
    KeyRoundTripIff(s);
  }

  lemma SegmentsSplit(segments: seq<string>)
    requires |segments| > 1
    ensures AreSegments(segments) <==> IsSegment(segments[0], false) && AreSegments(segments[1..])
  {
    hide IsSegment;
    assert forall i :: 0 <= i < |segments| - 1 ==> segments[1..][i] == segments[i + 1];
    if AreSegments(segments[1..]) && IsSegment(segments[0], false) {
      assert forall i :: 1 <= i < |segments| ==> segments[i] == segments[1..][i - 1];
    }
  }

  /** The keys that are written: each segment names an entry, and the path of the whole
      key does not look like bookkeeping. */
  lemma {:induction false} GoodKeyIff(path: string, segments: seq<string>)
    requires segments != []
    ensures GoodKey(path, segments)
       <==> AreSegments(segments) && !IsInternalPath(ChildPath(path, Join(Names(segments))))
    decreases |segments|
  {
    hide EscapeKey, IsInternalPath, GoodSegment, IsSegment, AreSegments;
    var s := segments[0];
    SegmentIff(s, |segments| == 1);
    if |segments| == 1 {
      OneSegment(segments);
      assert Names(segments) == [EscapeKey(s)];
    } else {
      SegmentsSplit(segments);
      GoodKeyIff(ChildPath(path, EscapeKey(s)), segments[1..]);
      if AreSegments(segments) {
        NameNotEmpty(s);
      }
      assert Names(segments)[1..] == Names(segments[1..]);
      PathsAgree(path, EscapeKey(s), Join(Names(segments[1..])));
    }
  }

  /** Escaping a key as a whole and escaping its segments come to the same path. */
  lemma {:induction false} PathOfKey(segments: seq<string>)
    requires segments != [] && AreSegments(segments)
    ensures EscapeKey(Join(segments)) == Join(Names(segments))
    ensures Join(segments) != "" && Join(segments)[0] != '/'
    decreases |segments|
  {
    hide EscapeKey, UnescapeKey, HasSuffix, AreSegments;
    var s := segments[0];
    if |segments| == 1 {
      OneSegment(segments);
      assert s[0] in s;
    } else {
      SegmentsSplit(segments);
      assert s[0] in s;
      PathOfKey(segments[1..]);
      NoSuffix(s);
      assert s[|s| - 1] in s;
      EscapeSplit(s, Join(segments[1..]));
      assert Names(segments)[1..] == Names(segments[1..]);
    }
  }

  /** So the keys that are written are these: */
  lemma WrittenIff(segments: seq<string>)
    requires segments != []
    ensures GoodKey("", segments) <==> AreSegments(segments) && !IsInternalPath(EscapeKey(Join(segments)))
  {
    hide EscapeKey, IsInternalPath, GoodKey, AreSegments, Names, Join;
    GoodKeyIff("", segments);
    if AreSegments(segments) {
      PathOfKey(segments);
    }
  }

  lemma OneSegment(segments: seq<string>)
    requires |segments| == 1
    ensures AreSegments(segments) <==> IsSegment(segments[0], true)
  {
    hide IsSegment;
  }

  lemma NameNotEmpty(s: string)
    requires IsSegment(s, false) || IsSegment(s, true)
    ensures EscapeKey(s) != ""
  {
    hide EscapeKey, Unescape;
    UnescapeEmpty();
  }

  lemma PathsAgree(path: string, name: string, rest: string)
    ensures name != "" ==> ChildPath(ChildPath(path, name), rest) == ChildPath(path, name + "/" + rest)
  {
    if path != "" {
      assert path + "/" + name + "/" + rest == path + "/" + (name + "/" + rest);
    }
  }

  // ---- which writes ----

  /** What is at a path, by the names on it. */
  function At(n: Node, names: seq<string>): Option<Node>
    decreases |names|
  {
    if names == [] then Some(n)
    else if n.File? then None
    else
      match FindKid(n.kids, names[0])
      case None => None
      case Some(k) => At(k, names[1..])
  }

  predicate FileAt(n: Node, names: seq<string>) {
    At(n, names).Some? && At(n, names).value.File?
  }

  predicate DirAt(n: Node, names: seq<string>) {
    At(n, names).Some? && At(n, names).value.Dir?
  }

  lemma AtKid(n: Node, names: seq<string>)
    requires n.Dir? && names != []
    ensures var kid := FindKid(n.kids, names[0]);
            && (FileAt(n, names) <==> kid.Some? && FileAt(kid.value, names[1..]))
            && (DirAt(n, names) <==> kid.Some? && DirAt(kid.value, names[1..]))
  {
    hide FindKid;
  }

  lemma AtEnd(n: Node, names: seq<string>)
    ensures n.File? ==> !DirAt(n, names) && (FileAt(n, names) <==> names == [])
    ensures names == [] ==> (DirAt(n, names) <==> n.Dir?) && (FileAt(n, names) <==> n.File?)
  {
  }

  lemma {:induction false} FindSetKid(kids: seq<Node>, k: Node, name: string)
    ensures FindKid(SetKid(kids, k), name) == if name == k.name then Some(k) else FindKid(kids, name)
    decreases |kids|
  {
    if kids != [] {
      FindSetKid(kids[1..], k, name);
    }
  }

  /** A blob lies where the path has a directory. */
  predicate FileAbove(n: Node, names: seq<string>, i: int) {
    0 < i < |names| && FileAt(n, names[..i])
  }

  lemma AboveStep(n: Node, names: seq<string>, i: int)
    requires n.Dir? && |names| > 1
    ensures var kid := FindKid(n.kids, names[0]);
            FileAbove(n, names, i)
            <==> kid.Some? && 0 < i < |names| && if i == 1 then kid.value.File? else FileAbove(kid.value, names[1..], i - 1)
  {
    hide FindKid, FileAt;
    if 0 < i < |names| {
      var kid := FindKid(n.kids, names[0]);
      assert names[..i][0] == names[0] && names[..i][1..] == names[1..][..i - 1];
      AtKid(n, names[..i]);
      if kid.Some? {
        AtEnd(kid.value, names[..i][1..]);
      }
    }
  }

  lemma AboveBounds(n: Node, names: seq<string>, i: int)
    ensures FileAbove(n, names, i) ==> 0 < i < |names|
  {
  }

  ghost predicate AnyAbove(n: Node, names: seq<string>) {
    exists i :: FileAbove(n, names, i)
  }

  lemma AboveIff(n: Node, names: seq<string>)
    requires n.Dir? && |names| > 1
    ensures var kid := FindKid(n.kids, names[0]);
            AnyAbove(n, names) <==> kid.Some? && (kid.value.File? || AnyAbove(kid.value, names[1..]))
  {
    hide FileAt, FindKid;
    var kid := FindKid(n.kids, names[0]);
    AboveStep(n, names, 1);
    if i :| FileAbove(n, names, i) {
      AboveStep(n, names, i);
      assert i != 1 ==> FileAbove(kid.value, names[1..], i - 1);
    }
    if kid.Some? {
      if i :| FileAbove(kid.value, names[1..], i) {
        AboveBounds(kid.value, names[1..], i);
        AboveStep(n, names, i + 1);
      }
    }
  }

  /** A write is refused by a blob on the way, or by a directory in its place. */
  lemma {:induction false} StoreIff(n: Node, segments: seq<string>, size: nat)
    requires n.Dir? && segments != []
    ensures var names := Names(segments);
            Store(n, segments, size).Some? <==> !DirAt(n, names) && !AnyAbove(n, names)
    decreases |segments|
  {
    hide EscapeKey, FileAbove, FileAt, DirAt, At;
    var names, name := Names(segments), EscapeKey(segments[0]);
    var kid := FindKid(n.kids, name);
    assert names[0] == name && names[1..] == Names(segments[1..]);
    AtKid(n, names);
    if |segments| == 1 {
      if kid.Some? {
        AtEnd(kid.value, names[1..]);
      }
      forall i ensures !FileAbove(n, names, i) {
        NotAbove(n, names, i);
      }
    } else {
      AboveIff(n, names);
      var d := if kid.Some? then kid.value else Dir(name, []);
      if kid.None? {
        NothingIn(d, names[1..]);
      }
      if d.Dir? {
        StoreIff(d, segments[1..], size);
      }
    }
  }

  lemma NotAbove(n: Node, names: seq<string>, i: int)
    requires |names| == 1
    ensures !FileAbove(n, names, i)
  {
  }

  lemma NothingIn(d: Node, names: seq<string>)
    requires d.Dir? && d.kids == [] && names != []
    ensures !DirAt(d, names) && !FileAt(d, names) && forall i :: !FileAbove(d, names, i)
  {
  }

  /** A write puts a blob at its path, and directories on the way. */
  lemma {:induction false} StoreAt(n: Node, segments: seq<string>, size: nat, names: seq<string>)
    requires n.Dir? && segments != [] && names != [] && Store(n, segments, size).Some?
    ensures var m, all := Store(n, segments, size).value, Names(segments);
            && (FileAt(m, names) <==> names == all || FileAt(n, names))
            && (DirAt(m, names) <==> names < all || DirAt(n, names))
    decreases |segments|
  {
    hide EscapeKey, Store, FileAt, DirAt, At;
    var name, m, k := EscapeKey(segments[0]), Store(n, segments, size).value, StoredKid(n, "", segments, size);
    var kid, xs, ys := FindKid(n.kids, name), names[1..], Names(segments[1..]);
    assert Names(segments) == [name] + ys && names == [names[0]] + xs;
    FindSetKid(n.kids, k, names[0]);
    StoredKidIs(n, segments, size);
    AtKid(n, names);
    AtKid(m, names);
    AtEnd(k, xs);
    PrefixStep(names[0], xs, name, ys);
    if names[0] == name {
      if kid.Some? {
        AtEnd(kid.value, xs);
      }
      if |segments| > 1 && xs != [] {
        StoreAt(if kid.Some? then kid.value else Dir(name, []), segments[1..], size, xs);
        NothingIn(Dir(name, []), xs);
      }
    }
  }

  lemma StoredKidIs(n: Node, segments: seq<string>, size: nat)
    requires n.Dir? && segments != [] && Store(n, segments, size).Some?
    ensures var name := EscapeKey(segments[0]);
            var kid, k := FindKid(n.kids, name), StoredKid(n, "", segments, size);
            if |segments| == 1 then k == File(name, size) && (kid.Some? ==> kid.value.File?)
            else
              var d := if kid.Some? then kid.value else Dir(name, []);
              d.Dir? && Store(d, segments[1..], size) == Some(k) && k.Dir?
  {
    hide EscapeKey, FindKid;
  }

  lemma PrefixStep(x: string, xs: seq<string>, y: string, ys: seq<string>)
    ensures [x] + xs < [y] + ys <==> x == y && xs < ys
    ensures [x] + xs == [y] + ys <==> x == y && xs == ys
  {
    var a, b := [x] + xs, [y] + ys;
    assert a[1..] == xs && b[1..] == ys && a[0] == x && b[0] == y;
    if x == y && xs < ys {
      assert b == a + ys[|xs|..];
    }
    if a < b {
      assert forall i :: 0 <= i < |xs| ==> xs[i] == a[i + 1] && a[i + 1] == b[i + 1] && b[i + 1] == ys[i];
      assert xs == ys[..|xs|];
    }
  }

  // ---- runs of writes ----

  predicate NamedLike(puts: seq<Put>, i: int, names: seq<string>) {
    0 <= i < |puts| && Names(puts[i].segments) == names
  }

  predicate GoesBelow(puts: seq<Put>, i: int, names: seq<string>) {
    0 <= i < |puts| && names < Names(puts[i].segments)
  }

  lemma {:induction false} BucketAt(puts: seq<Put>, names: seq<string>)
    requires GoodPuts(puts) && BucketOf(puts).Some? && names != []
    ensures FileAt(BucketOf(puts).value, names) <==> exists i :: NamedLike(puts, i, names)
    ensures DirAt(BucketOf(puts).value, names) <==> exists i :: GoesBelow(puts, i, names)
    decreases |puts|
  {
    hide Names, Store, GoodKey, FileAt, DirAt;
    if puts == [] {
      NothingIn(Dir("", []), names);
    } else {
      var front, last := puts[..|puts| - 1], puts[|puts| - 1];
      BucketAt(front, names);
      StoreAt(BucketOf(front).value, last.segments, last.size, names);
      assert forall i :: 0 <= i < |front| ==> NamedLike(front, i, names) == NamedLike(puts, i, names);
      assert forall i :: 0 <= i < |front| ==> GoesBelow(front, i, names) == GoesBelow(puts, i, names);
      assert NamedLike(puts, |front|, names) <==> names == Names(last.segments);
      assert GoesBelow(puts, |front|, names) <==> names < Names(last.segments);
    }
  }

  /** The names of a good key are its own. */
  lemma {:induction false} NamesOwn(a: seq<string>, b: seq<string>)
    requires Readable(a) && Readable(b) && Names(a) <= Names(b)
    ensures a <= b
    decreases |a|
  {
    hide EscapeKey, UnescapeKey;
    if a != [] {
      assert Names(a)[0] == Names(b)[0];
      assert a[0] == b[0];
      assert Names(a)[1..] == Names(a[1..]) && Names(b)[1..] == Names(b[1..]);
      NamesOwn(a[1..], b[1..]);
      assert a == [a[0]] + a[1..] && b == [b[0]] + b[1..];
    }
  }

  lemma {:induction false} NamesKeep(a: seq<string>, b: seq<string>)
    requires a <= b
    ensures Names(a) <= Names(b)
    decreases |a|
  {
    hide EscapeKey;
    if a != [] {
      assert b[1..][..|a| - 1] == a[1..];
      NamesKeep(a[1..], b[1..]);
    }
  }

  predicate Readable(segments: seq<string>) {
    forall i :: 0 <= i < |segments| ==> UnescapeKey(EscapeKey(segments[i])) == segments[i]
  }

  lemma GoodIsReadable(path: string, segments: seq<string>)
    requires segments != [] && GoodKey(path, segments)
    ensures Readable(segments)
  {
    hide GoodKey, EscapeKey, UnescapeKey;
    GoodKeyIff(path, segments);
  }

  lemma BelowIff(a: seq<string>, b: seq<string>)
    requires Readable(a) && Readable(b)
    ensures Names(a) < Names(b) <==> a < b
  {
    hide Readable;
    if Names(a) < Names(b) {
      NamesOwn(a, b);
    }
    if a < b {
      NamesKeep(a, b);
    }
  }

  /** One key goes on below the other. */
  predicate Clash(puts: seq<Put>, i: int, j: int) {
    0 <= i < |puts| && 0 <= j < |puts| && puts[i].segments < puts[j].segments
  }

  /** A run of writes is taken if and only if no key of it is the directory of another
      one: whatever the order, and however often a key is written. */
  lemma {:induction false} BucketIff(puts: seq<Put>)
    requires GoodPuts(puts)
    ensures BucketOf(puts).Some? <==> !exists i, j :: Clash(puts, i, j)
    decreases |puts|
  {
    hide Names, Store, GoodKey, FileAbove, DirAt;
    if puts != [] {
      var n := |puts| - 1;
      var front, last := puts[..n], puts[n];
      BucketIff(front);
      assert forall i, j :: 0 <= i < n && 0 <= j < n ==> Clash(front, i, j) == Clash(puts, i, j);
      if BucketOf(front).Some? {
        StoreIff(BucketOf(front).value, last.segments, last.size);
        LastClash(puts);
      }
    }
  }

  lemma LastClash(puts: seq<Put>)
    requires GoodPuts(puts) && puts != [] && BucketOf(puts[..|puts| - 1]).Some?
    ensures var k := |puts| - 1;
            var n, names := BucketOf(puts[..k]).value, Names(puts[k].segments);
            && (DirAt(n, names) <==> exists j :: Clash(puts, k, j))
            && (AnyAbove(n, names) <==> exists j :: Clash(puts, j, k))
    ensures !Clash(puts, |puts| - 1, |puts| - 1)
  {
    hide Names, GoodKey, FileAt, DirAt, BucketOf;
    var k := |puts| - 1;
    var front, last := puts[..k], puts[k].segments;
    var n, names := BucketOf(front).value, Names(last);
    NamesThere(last);
    BucketAt(front, names);
    forall j | 0 <= j < k
      ensures GoesBelow(front, j, names) <==> Clash(puts, k, j)
      ensures Names(puts[j].segments) < names <==> Clash(puts, j, k)
    {
      GoodIsReadable("", puts[j].segments);
      GoodIsReadable("", last);
      BelowIff(last, puts[j].segments);
      BelowIff(puts[j].segments, last);
    }
    forall i | 0 < i < |names|
      ensures FileAt(n, names[..i]) <==> exists j :: NamedLike(front, j, names[..i])
    {
      BucketAt(front, names[..i]);
    }
    forall j | 0 <= j < k && Names(puts[j].segments) < names
      ensures NamedLike(front, j, names[..|puts[j].segments|]) && FileAbove(n, names, |puts[j].segments|)
    {
      NamesThere(puts[j].segments);
    }
  }

  lemma NamesThere(segments: seq<string>)
    ensures |Names(segments)| == |segments|
  {
  }
}
