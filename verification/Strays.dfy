/** What the walk reports from a directory by whatever path it is read: the keys then
    begin with the path, wherever the directory is (list.go:113-287). */
module Strays {
  import opened Strings
  import opened KeyEscape
  import opened Listing
  import opened Paging
  import opened Reserved
  import opened Tree
  import opened Walk

  // ---- a page without any key that has the prefix is empty ----

  /** Nothing to report so far. */
  predicate IsBlank(w: Walked) {
    w.acc.objects == [] && !w.acc.full
  }

  lemma {:induction false} WalkInSet(n: Node, path: string, b: Blob)
    requires n.Dir? && b in Tree.Walk(n, path)
    ensures b in BlobSet(n, path)
    decreases n
  {
    hide UnescapeKey, IsInternalPath, BlobSet;
    var ks := Children(path, n.kids);
    ChildrenBelow(n, path);
    WalkMember(n, ks, path, b);
    DirBlobs(n, path, b);
    var k :| k in ks && b in WalkKid(k, path);
    if k.Dir? {
      WalkInSet(k, ChildPath(path, k.name), b);
    } else {
      FileBlobs(k, ChildPath(path, k.name), b);
    }
  }

  lemma {:induction false} BlankVisit(o: Options, n: Node, path: string, w: Walked)
    requires n.Dir? && path != "" && IsBlank(w)
    requires forall b :: b in Tree.Walk(n, path) ==> !HasPrefix(b.key, o.prefix)
    ensures IsBlank(Visit(o, n, path, w))
    decreases n, 1
  {
    hide UnescapeKey, VisitKids, WalkKids, HasPrefix;
    ChildrenBelow(n, path);
    BlankKids(o, n, Children(path, n.kids), path, w.(dirsRead := w.dirsRead + 1));
  }

  lemma {:induction false} BlankKids(o: Options, n: Node, ks: seq<Node>, path: string, w: Walked)
    requires Below(ks, n) && path != "" && IsBlank(w)
    requires forall b :: b in WalkKids(n, ks, path) ==> !HasPrefix(b.key, o.prefix)
    ensures IsBlank(VisitKids(o, n, ks, path, w))
    decreases n, 0, |ks|
  {
    hide VisitKid, WalkKid, HasPrefix, IsBlank;
    if ks != [] && !w.acc.full {
      BlankKid(o, ks[0], path, w);
      BlankKids(o, n, ks[1..], path, VisitKid(o, ks[0], path, w));
    }
  }

  lemma {:induction false} BlankKid(o: Options, k: Node, path: string, w: Walked)
    requires path != "" && IsBlank(w)
    requires forall b :: b in WalkKid(k, path) ==> !HasPrefix(b.key, o.prefix)
    ensures IsBlank(VisitKid(o, k, path, w))
    decreases k, 2
  {
    hide UnescapeKey, IsInternalPath, Visit, Tree.Walk, Probe, Descends;
    if k.Dir? {
      var dir := ChildPath(path, k.name);
      var sub := UnescapeKey(dir) + "/";
      BlankVisit(o, k, dir, w);
      if Descends(o, sub) && Collapses(o, sub) {
        ProbeFinds(k, dir);
        if Probe(k, dir).found {
          var b := Tree.Walk(k, dir)[0];
          WalkInSet(k, dir, b);
          SetBeneath(k, dir, b);
          assert b in WalkKid(k, path);
          assert HasPrefix(b.key, sub);
          PrefixOfPrefix(b.key, sub, o.prefix);
          assert false;
        }
      }
    } else {
      assert WalkKid(k, path)[0] in WalkKid(k, path);
    }
  }

  // ---- a key that has the prefix makes the page other than empty ----

  predicate IsFilled(w: Walked) {
    w.acc.objects != []
  }

  /** Every key, as long as the page holds. */
  predicate AllKeys(o: Options) {
    o.delimiter == "" && o.pageToken == "" && o.pageSize >= 1
  }

  predicate Sane(w: Walked) {
    w.acc.full ==> IsFilled(w)
  }

  lemma {:induction false} FilledVisit(o: Options, n: Node, path: string, w: Walked, b: Blob)
    requires n.Dir? && path != "" && AllKeys(o) && Sane(w)
    ensures Sane(Visit(o, n, path, w))
    ensures IsFilled(w) || (b in Tree.Walk(n, path) && HasPrefix(b.key, o.prefix)) ==> IsFilled(Visit(o, n, path, w))
    decreases n, 1
  {
    hide UnescapeKey, VisitKids, WalkKids, HasPrefix;
    ChildrenBelow(n, path);
    FilledKids(o, n, Children(path, n.kids), path, w.(dirsRead := w.dirsRead + 1), b);
  }

  lemma {:induction false} FilledKids(o: Options, n: Node, ks: seq<Node>, path: string, w: Walked, b: Blob)
    requires Below(ks, n) && path != "" && AllKeys(o) && Sane(w)
    ensures Sane(VisitKids(o, n, ks, path, w))
    ensures IsFilled(w) || (b in WalkKids(n, ks, path) && HasPrefix(b.key, o.prefix)) ==> IsFilled(VisitKids(o, n, ks, path, w))
    decreases n, 0, |ks|
  {
    hide VisitKid, WalkKid, HasPrefix, AllKeys;
    if ks != [] && !w.acc.full {
      FilledKid(o, ks[0], path, w, b);
      FilledKids(o, n, ks[1..], path, VisitKid(o, ks[0], path, w), b);
    }
  }

  lemma {:induction false} FilledKid(o: Options, k: Node, path: string, w: Walked, b: Blob)
    requires path != "" && AllKeys(o) && Sane(w)
    ensures Sane(VisitKid(o, k, path, w))
    ensures IsFilled(w) || (b in WalkKid(k, path) && HasPrefix(b.key, o.prefix)) ==> IsFilled(VisitKid(o, k, path, w))
    decreases k, 2
  {
    hide UnescapeKey, IsInternalPath, Visit, Tree.Walk, Probe;
    if k.Dir? {
      var dir := ChildPath(path, k.name);
      FilledVisit(o, k, dir, w, b);
      if b in WalkKid(k, path) {
        WalkInSet(k, dir, b);
        SetBeneath(k, dir, b);
        if HasPrefix(b.key, o.prefix) {
          OverlapDescends(o, b.key, UnescapeKey(dir) + "/");
        }
      }
    }
  }

  lemma OverlapDescends(o: Options, key: string, sub: string)
    requires AllKeys(o) && HasPrefix(key, sub) && HasPrefix(key, o.prefix)
    ensures Descends(o, sub)
  {
  }

  // ---- the same directory by two paths ----

  /** A path behind a slash is bookkeeping if it is by itself, or if what is before the
      slash holds the name of writes in progress. */
  lemma InternalSplit(p: string, r: string)
    ensures IsInternalPath(p + "/" + r) <==> Contains(p, TEMP_INFIX) || IsInternalPath(r)
  {
    ContainsSplit(p, r);
    SuffixSplit(p, r);
  }

  lemma ContainsSplit(p: string, r: string)
    ensures Contains(p + "/" + r, TEMP_INFIX) <==> Contains(p, TEMP_INFIX) || Contains(r, TEMP_INFIX)
  {
    hide OccursAt;
    var t, x := p + "/" + r, TEMP_INFIX;
    assert forall n :: 0 <= n < |x| ==> x[n] != '/';
    if i :| 0 <= i <= |t| && OccursAt(t, x, i) {
      OccursOnOneSide(p, r, x, i);
    }
    if i :| 0 <= i <= |p| && OccursAt(p, x, i) {
      OccursOnOneSide(p, r, x, i);
    }
    if i :| 0 <= i <= |r| && OccursAt(r, x, i) {
      OccursOnOneSide(p, r, x, |p| + 1 + i);
    }
  }

  lemma OccursOnOneSide(p: string, r: string, x: string, i: nat)
    requires x != "" && forall n :: 0 <= n < |x| ==> x[n] != '/'
    ensures OccursAt(p + "/" + r, x, i) <==> OccursAt(p, x, i) || OccursAt(r, x, i - |p| - 1)
    ensures OccursAt(r, x, i - |p| - 1) ==> 0 <= i - |p| - 1 <= |r|
    ensures OccursAt(p, x, i) ==> i <= |p|
  {
    var t := p + "/" + r;
    if i + |x| <= |p| {
      assert t[i..i + |x|] == p[i..i + |x|];
    } else if i > |p| {
      if i + |x| <= |t| {
        assert t[i..i + |x|] == r[i - |p| - 1..i - |p| - 1 + |x|];
      }
    } else if i + |x| <= |t| {
      assert t[i..i + |x|][|p| - i] == '/';
    }
  }

  lemma SuffixSplit(p: string, r: string)
    ensures HasSuffix(p + "/" + r, ATTRS_EXT) <==> HasSuffix(r, ATTRS_EXT)
  {
    var t, x := p + "/" + r, ATTRS_EXT;
    if |x| <= |r| {
      assert t[|t| - |x|..] == r[|r| - |x|..];
    } else if |x| <= |t| {
      var tail := t[|t| - |x|..];
      assert tail[|x| - |r| - 1] == t[|p|] == '/';
      assert '/' in tail && '/' !in x;
    }
  }

  /** What is below one path is bookkeeping exactly if it is below the other. */
  ghost predicate SameInternal(p: string, q: string) {
    forall r :: r != "" ==> (IsInternalPath(ChildPath(p, r)) <==> IsInternalPath(ChildPath(q, r)))
  }

  lemma NoInfixSame(p: string, q: string)
    requires !Contains(p, TEMP_INFIX) && !Contains(q, TEMP_INFIX)
    ensures SameInternal(p, q)
  {
    hide IsInternalPath, Contains;
    forall r | r != ""
      ensures IsInternalPath(ChildPath(p, r)) <==> IsInternalPath(ChildPath(q, r))
    {
      InternalSplit(p, r);
      InternalSplit(q, r);
    }
  }

  lemma SameInternalBelow(p: string, q: string, name: string)
    requires SameInternal(p, q) && name != ""
    ensures SameInternal(ChildPath(p, name), ChildPath(q, name))
    ensures IsInternalPath(ChildPath(p, name)) <==> IsInternalPath(ChildPath(q, name))
  {
    hide IsInternalPath;
    forall r | r != ""
      ensures IsInternalPath(ChildPath(ChildPath(p, name), r)) <==> IsInternalPath(ChildPath(ChildPath(q, name), r))
    {
      assert ChildPath(ChildPath(p, name), r) == ChildPath(p, name + "/" + r);
      assert ChildPath(ChildPath(q, name), r) == ChildPath(q, name + "/" + r);
    }
  }

  /** The key prefix of a path below another. */
  lemma PrefixBelow(p: string, name: string)
    requires name != ""
    ensures KeyPrefix(ChildPath(p, name)) == KeyPrefix(p) + UnescapeKey(name) + "/"
  {
    hide UnescapeKey;
    ChildKey(p, name);
  }

  /** What the walk finds by one path it finds by the other, with the other path's key
      in front. */
  lemma {:induction false} Moved(n: Node, p: string, q: string, x: string, y: string, z: string, b: Blob)
    requires n.Dir? && FileSystemTree(n) && SameInternal(p, q)
    requires KeyPrefix(p) == x + z && KeyPrefix(q) == y + z && b in Tree.Walk(n, p)
    ensures HasPrefix(b.key, x) && Blob(y + b.key[|x|..], b.size) in Tree.Walk(n, q)
    decreases n, 0
  {
    hide UnescapeKey, IsInternalPath, KeyPrefix, WalkKid, Tree.Walk, FileSystemTree, SameInternal, Visible;
    var k := KidOfWalk(n, p, b);
    KidsOfTree(n, k);
    MovedKid(k, p, q, x, y, z, b);
    WalkOfKid(n, q, k, Blob(y + b.key[|x|..], b.size));
  }

  lemma KidOfWalk(n: Node, p: string, b: Blob) returns (k: Node)
    requires n.Dir? && b in Tree.Walk(n, p)
    ensures k in n.kids && Visible(p, k) && b in WalkKid(k, p)
  {
    hide WalkKid, Visible;
    ChildrenBelow(n, p);
    WalkMember(n, Children(p, n.kids), p, b);
    k :| k in Children(p, n.kids) && b in WalkKid(k, p);
  }

  lemma WalkOfKid(n: Node, p: string, k: Node, b: Blob)
    requires n.Dir? && k in n.kids && Visible(p, k) && b in WalkKid(k, p)
    ensures b in Tree.Walk(n, p)
  {
    hide WalkKid, Visible;
    ChildrenBelow(n, p);
    WalkMember(n, Children(p, n.kids), p, b);
  }

  lemma {:induction false} MovedKid(k: Node, p: string, q: string, x: string, y: string, z: string, b: Blob)
    requires k.name != "" && FileSystemTree(k) && SameInternal(p, q) && Visible(p, k)
    requires KeyPrefix(p) == x + z && KeyPrefix(q) == y + z && b in WalkKid(k, p)
    ensures HasPrefix(b.key, x) && Visible(q, k) && Blob(y + b.key[|x|..], b.size) in WalkKid(k, q)
    decreases k, 1
  {
    hide UnescapeKey, IsInternalPath, KeyPrefix, FileSystemTree, SameInternal;
    var u := UnescapeKey(k.name);
    SameInternalBelow(p, q, k.name);
    if k.Dir? {
      PrefixBelow(p, k.name);
      PrefixBelow(q, k.name);
      assert x + z + u + "/" == x + (z + u + "/") && y + z + u + "/" == y + (z + u + "/");
      Moved(k, ChildPath(p, k.name), ChildPath(q, k.name), x, y, z + u + "/", b);
    } else {
      ChildKey(p, k.name);
      ChildKey(q, k.name);
      assert (x + z + u)[..|x|] == x && y + (x + z + u)[|x|..] == y + z + u;
    }
  }
}
