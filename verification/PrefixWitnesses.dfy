/** Trees in which a prefix that misleads does so, and so the exact condition on a prefix
    for its listings to be right (list.go:38-64, 306-312). */
module PrefixWitnesses {
  import opened Strings
  import opened Numerals
  import opened Escape
  import opened KeyEscape
  import opened Listing
  import opened Prefixes
  import opened Reserved
  import opened Strays
  import opened Tree
  import opened Walk

  // ---- a file with any key at all ----

  const EVERY: Rule := (s: string, i: nat) => true

  /** A name that reads as s: each rune of it escaped. */
  function HexName(s: string): string { Escape.Escape(s, EVERY) }

  lemma {:induction false} HexNameRunes(s: string, i: nat)
    requires i <= |s|
    ensures forall c :: c in EscapeFrom(s, EVERY, i) ==> c != '.' && c != '/'
    ensures i < |s| ==> EscapeFrom(s, EVERY, i) != ""
    ensures EscapeFrom(s, EVERY, i) != "" ==> var e := EscapeFrom(s, EVERY, i); e[|e| - 1] == '_'
    decreases |s| - i
  {
    hide EscapeRune;
    if i < |s| {
      HexNameRunes(s, i + 1);
      PrintedRune(s[i]);
      assert EscapeFrom(s, EVERY, i) == EscapeRune(s[i]) + EscapeFrom(s, EVERY, i + 1);
    }
  }

  lemma PrintedRune(c: char)
    ensures forall x :: x in EscapeRune(c) ==> x != '.' && x != '/'
    ensures |EscapeRune(c)| >= 6 && EscapeRune(c)[|EscapeRune(c)| - 1] == '_'
  {
    hide Print;
    PrintedDigits(c as int, 16);
    assert '.' !in DIGITS && '/' !in DIGITS;
  }

  lemma HexNameIs(s: string)
    requires s != ""
    ensures IsName(HexName(s)) && UnescapeKey(HexName(s)) == s && !IsInternalPath(HexName(s))
  {
    hide EscapeFrom;
    HexNameRunes(s, 0);
    forall i | 0 <= i < |s|
      ensures !SpliceAt(s, EVERY, i)
    {
      assert NextEscaped(s, EVERY, i) == i;
      NoSpliceInEmpty();
      assert PlainFrom(s, EVERY, i) == "";
    }
    RoundTrip(s, EVERY);
    NoDot(HexName(s));
  }

  lemma NoDot(s: string)
    requires '.' !in s
    ensures !IsInternalPath(s)
  {
    forall i | 0 <= i <= |s|
      ensures !OccursAt(s, TEMP_INFIX, i)
    {
      assert TEMP_INFIX[0] == '.';
      assert i + |TEMP_INFIX| <= |s| ==> s[i..i + |TEMP_INFIX|][0] == s[i] && s[i] in s;
    }
    assert ATTRS_EXT[0] == '.';
    if |ATTRS_EXT| <= |s| {
      assert s[|s| - |ATTRS_EXT|..][0] == s[|s| - |ATTRS_EXT|] && s[|s| - |ATTRS_EXT|] in s;
    }
  }

  // ---- trees with a single file ----

  /** A directory, and the directories of these names one below the other. */
  function Trunk(name: string, names: seq<string>, kids: seq<Node>): (n: Node)
    ensures n.Dir? && n.name == name
    decreases |names|
  {
    Dir(name, if names == [] then kids else [Trunk(names[0], names[1..], kids)])
  }

  lemma {:induction false} TrunkLookup(name: string, names: seq<string>, kids: seq<Node>, m: nat)
    requires m <= |names|
    ensures Lookup(Trunk(name, names, kids), names[..m])
         == Some(Trunk(if m == 0 then name else names[m - 1], names[m..], kids))
    decreases m
  {
    if m > 0 {
      TrunkLookup(name, names, kids, m - 1);
      assert names[..m][..m - 1] == names[..m - 1];
      assert names[m - 1..][0] == names[m - 1] && names[m - 1..][1..] == names[m..];
    }
  }

  lemma {:induction false} AlongHead(path: string, names: seq<string>)
    requires names != []
    ensures Along(path, names) == Along(ChildPath(path, names[0]), names[1..])
    decreases |names|
  {
    if |names| > 1 {
      var n := |names| - 1;
      AlongHead(path, names[..n]);
      assert names[..n][1..] == names[1..][..n - 1];
    }
  }

  lemma {:induction false} TrunkOneBlob(name: string, names: seq<string>, f: Node, path: string, b: Blob)
    requires f.File? && b in BlobSet(Trunk(name, names, [f]), path)
    ensures b == Blob(UnescapeKey(ChildPath(Along(path, names), f.name)), f.size)
    decreases |names|
  {
    hide BlobSet, UnescapeKey, IsInternalPath;
    DirBlobs(Trunk(name, names, [f]), path, b);
    if names == [] {
      FileBlobs(f, ChildPath(path, f.name), b);
    } else {
      AlongHead(path, names);
      TrunkOneBlob(names[0], names[1..], f, ChildPath(path, names[0]), b);
    }
  }

  lemma {:induction false} TrunkWalk(name: string, names: seq<string>, f: Node, path: string)
    requires f.File? && !IsInternalPath(ChildPath(Along(path, names), f.name))
    requires forall m :: 0 < m <= |names| ==> !IsInternalPath(Along(path, names[..m]))
    ensures Blob(UnescapeKey(ChildPath(Along(path, names), f.name)), f.size) in Tree.Walk(Trunk(name, names, [f]), path)
    decreases |names|
  {
    hide UnescapeKey, IsInternalPath, Tree.Walk;
    var n := Trunk(name, names, [f]);
    var b := Blob(UnescapeKey(ChildPath(Along(path, names), f.name)), f.size);
    if names == [] {
      WalkOfKid(n, path, f, b);
    } else {
      var below := ChildPath(path, names[0]);
      AlongHead(path, names);
      assert Along(path, names[..1]) == below;
      forall m | 0 < m <= |names[1..]|
        ensures !IsInternalPath(Along(below, names[1..][..m]))
      {
        AlongHead(path, names[..m + 1]);
        assert names[..m + 1][1..] == names[1..][..m];
      }
      hide Along;
      TrunkWalk(names[0], names[1..], f, below);
      WalkOfKid(n, path, Trunk(names[0], names[1..], [f]), b);
    }
  }

  lemma {:induction false} DirNamesFront(names: seq<string>, m: nat)
    requires DirNames(names) && m < |names|
    ensures DirNames(names[..m]) && GoodName(Along("", names[..m]), Dir(names[m], []))
    decreases |names|
  {
    hide GoodName;
    if m < |names| - 1 {
      DirNamesFront(names[..|names| - 1], m);
      assert names[..|names| - 1][..m] == names[..m];
    }
  }

  lemma {:induction false} TrunkWellNamed(name: string, names: seq<string>, m: nat, f: Node)
    requires DirNames(names) && m <= |names| && f.File? && GoodName(Along("", names), f)
    ensures WellNamed(Trunk(name, names[m..], [f]), Along("", names[..m]))
    decreases |names| - m
  {
    hide UnescapeKey, EscapeKey, IsInternalPath, DistinctSortKeys, DirNames;
    var path := Along("", names[..m]);
    if m == |names| {
      assert names[..m] == names;
      OneSortKey(path, f);
      assert Trunk(name, names[m..], [f]) == Dir(name, [f]);
    } else {
      assert names[m..][0] == names[m] && names[m..][1..] == names[m + 1..];
      assert names[..m + 1][..m] == names[..m];
      var k := Trunk(names[m], names[m + 1..], [f]);
      TrunkWellNamed(names[m], names, m + 1, f);
      DirNamesFront(names, m);
      OneSortKey(path, k);
      assert Trunk(name, names[m..], [f]) == Dir(name, [k]);
    }
  }

  // ---- keys along paths ----

  /** What the names of directories add to a key. */
  function Stretch(names: seq<string>): string {
    if names == [] then "" else Stretch(names[..|names| - 1]) + UnescapeKey(names[|names| - 1]) + "/"
  }

  lemma {:induction false} AlongKey(path: string, names: seq<string>)
    requires AllNames(names)
    ensures KeyPrefix(Along(path, names)) == KeyPrefix(path) + Stretch(names)
    ensures names != [] ==> Along(path, names) == ChildPath(path, Along("", names)) && Along("", names) != ""
  {
    hide UnescapeKey, KeyPrefix;
    if names == [] {
      assert KeyPrefix(path) + "" == KeyPrefix(path);
    } else {
      var n := |names| - 1;
      AlongKey(path, names[..n]);
      PrefixBelow(Along(path, names[..n]), names[n]);
      var x, u := Stretch(names[..n]), UnescapeKey(names[n]);
      assert KeyPrefix(path) + x + u + "/" == KeyPrefix(path) + (x + u + "/");
    }
  }

  lemma {:induction false} StretchSplit(names: seq<string>, m: nat)
    requires m <= |names|
    ensures Stretch(names) == Stretch(names[..m]) + Stretch(names[m..])
    decreases |names|
  {
    hide UnescapeKey;
    if m == |names| {
      assert names[..m] == names && names[m..] == [];
    } else {
      var n := |names| - 1;
      StretchSplit(names[..n], m);
      assert names[..n][..m] == names[..m] && names[..n][m..] == names[m..][..n - m];
      assert names[m..][n - m] == names[n];
    }
  }

  lemma {:induction false} AlongSplit(path: string, names: seq<string>, m: nat)
    requires m <= |names|
    ensures Along(path, names) == Along(Along(path, names[..m]), names[m..])
    decreases |names|
  {
    if m == |names| {
      assert names[..m] == names && names[m..] == [];
    } else {
      var n := |names| - 1;
      AlongSplit(path, names[..n], m);
      assert names[..n][..m] == names[..m] && names[..n][m..] == names[m..][..n - m];
      assert names[m..][n - m] == names[n];
    }
  }

  /** Text on key prefixes: one that is shorter ends at a slash further in front. */
  lemma ShorterPrefix(x: string, u: string, y: string)
    requires '/' !in u && HasPrefix(x + u + "/", y) && y != x + u + "/" && (y == "" || y[|y| - 1] == '/')
    ensures HasPrefix(x, y)
  {
    var t := x + u + "/";
    assert forall i :: |x| <= i < |x| + |u| ==> t[i] == u[i - |x|] && u[i - |x|] in u;
    assert y != "" ==> t[|y| - 1] == '/';
    assert y == t[..|y|];
  }

  /** A directory whose keys all begin as those of another lies below it. */
  lemma {:induction false} AncestorNames(names: seq<string>, above: seq<string>)
    requires DirNames(names) && DirNames(above)
    requires HasPrefix(KeyPrefix(Along("", names)), KeyPrefix(Along("", above)))
    ensures |above| <= |names| && above == names[..|above|]
    decreases |names|
  {
    hide UnescapeKey, EscapeKey, IsInternalPath, KeyPrefix, Along, HasPrefix;
    var x, y := KeyPrefix(Along("", names)), KeyPrefix(Along("", above));
    DirNamesAreNames(names);
    DirNamesAreNames(above);
    EndsWithSlash(above);
    EndsWithSlash(names);
    if x == y {
      SameKeySame(names, above);
    } else if above != [] {
      assert names != [] by { HasPrefixShort(x, y); }
      var n := |names| - 1;
      var u := UnescapeKey(names[n]);
      SnocKey(names);
      ShorterPrefix(KeyPrefix(Along("", names[..n])), u, y);
      AncestorNames(names[..n], above);
      assert names[..n][..|above|] == names[..|above|];
    }
  }

  lemma HasPrefixShort(x: string, y: string)
    requires HasPrefix(x, y) && y != ""
    ensures x != ""
  {
  }

  lemma SnocKey(names: seq<string>)
    requires DirNames(names) && names != []
    ensures var n := |names| - 1;
            && DirNames(names[..n]) && '/' !in UnescapeKey(names[n])
            && KeyPrefix(Along("", names)) == KeyPrefix(Along("", names[..n])) + UnescapeKey(names[n]) + "/"
  {
    hide UnescapeKey, EscapeKey, IsInternalPath, KeyPrefix;
    PrefixBelow(Along("", names[..|names| - 1]), names[|names| - 1]);
  }

  lemma EndsWithSlash(names: seq<string>)
    requires AllNames(names)
    ensures var y := KeyPrefix(Along("", names));
            (names == [] <==> y == "") && (y == "" || y[|y| - 1] == '/')
  {
    hide UnescapeKey;
    CleanAlong(names);
  }

  lemma SameKeySame(names: seq<string>, above: seq<string>)
    requires DirNames(names) && DirNames(above)
    requires KeyPrefix(Along("", names)) == KeyPrefix(Along("", above))
    ensures names == above
  {
    hide UnescapeKey, EscapeKey, CleanPath, DirNames;
    DirNamesAreNames(names);
    DirNamesAreNames(above);
    CleanAlong(names);
    CleanAlong(above);
    var p, q := Along("", names), Along("", above);
    if p != "" && q != "" {
      assert UnescapeKey(p) == KeyPrefix(p)[..|KeyPrefix(p)| - 1] && UnescapeKey(q) == KeyPrefix(q)[..|KeyPrefix(q)| - 1];
    }
  }

  lemma FileIsGood(path: string, rest: string)
    requires '/' !in rest
    ensures GoodName(path, File(HexName(rest + "a"), 1)) && !IsInternalPath(HexName(rest + "a"))
  {
    hide UnescapeKey, HexName, IsInternalPath;
    HexNameIs(rest + "a");
  }

  lemma FileKey(path: string, text: string)
    ensures UnescapeKey(ChildPath(path, HexName(text + "a"))) == KeyPrefix(path) + text + "a"
  {
    hide UnescapeKey, HexName;
    HexNameIs(text + "a");
    ChildKey(path, HexName(text + "a"));
  }

  lemma WholeTrunk(names: seq<string>, f: Node)
    requires DirNames(names) && f.File? && GoodName(Along("", names), f)
    ensures WellNamed(Trunk("", names, [f]), "")
  {
    hide WellNamed, DirNames, GoodName;
    TrunkWellNamed("", names, 0, f);
    assert names[0..] == names;
  }

  lemma FileShown(path: string, below: seq<string>, name: string)
    requires !Contains(path, TEMP_INFIX) && !IsInternalPath(name) && path != ""
    requires forall j :: 0 < j <= |below| ==> !IsInternalPath(Along(path, below[..j]))
    ensures !IsInternalPath(ChildPath(Along(path, below), name))
  {
    hide Contains, HasSuffix;
    if below != [] {
      assert below[..|below|] == below;
    }
    InternalSplit(Along(path, below), name);
  }

  lemma OnlyBlob(root: Node, prefix: string, b: Blob) returns (all: seq<Blob>)
    requires forall c :: c in BlobSet(root, "") ==> c == b
    ensures Enumerates(all, root, prefix)
  {
    hide BlobSet, Shown;
    all := if b in BlobSet(root, "") && Shown(StartPath(prefix), b.key) then [b] else [];
  }

  // ---- in the bucket ----

  /** The directories of these names, the first m of which the path leads to. */
  lemma InsideWitness(prefix: string, names: seq<string>, m: nat, rest: string)
    requires var path := StartPath(prefix);
             !CleanPath(path) && m <= |names| && Clean(path) == Place(0, names[..m]) && !Contains(path, TEMP_INFIX)
    requires DirNames(names) && '/' !in rest
    requires forall j :: 0 < j <= |names[m..]| ==> !IsInternalPath(Along(StartPath(prefix), names[m..][..j]))
    requires HasPrefix(KeyPrefix(Along(StartPath(prefix), names[m..])) + rest, prefix)
    ensures !AlwaysRight(prefix)
  {
    hide UnescapeKey, EscapeKey, IsInternalPath, DirNames, Along, CleanPath, Clean, StartPath, KeyPrefix, Contains,
         WellNamed, Tree.Walk, BlobSet, Lookup, Visit, FileSystemTree, IdealPage, IsName, AllNames, Shown;
    var path, below := StartPath(prefix), names[m..];
    var f := File(HexName(rest + "a"), 1);
    var root := Trunk("", names, [f]);
    var disk := Disk(root, []);
    var o := Options(prefix, "", "", 10);
    FileIsGood(Along("", names), rest);
    WholeTrunk(names, f);
    WellNamedTree(root, "");
    TrunkLookup("", names, [f], m);
    var n := Trunk(if m == 0 then "" else names[m - 1], below, [f]);
    ReadRoot(disk);
    assert ReadDir(disk, path) == Some(n);
    var b := Blob(UnescapeKey(ChildPath(Along(path, below), f.name)), 1);
    FileShown(path, below, f.name);
    TrunkWalk(n.name, below, f, path);
    FileKey(Along(path, below), rest);
    PrefixOfPrefix(b.key, KeyPrefix(Along(path, below)) + rest, prefix);
    FilledVisit(o, n, path, Walked(EMPTY, 0), b);
    var only := Blob(UnescapeKey(ChildPath(Along("", names), f.name)), 1);
    forall c | c in BlobSet(root, "")
      ensures c == only
    {
      TrunkOneBlob("", names, f, "", c);
    }
    var all := OnlyBlob(root, prefix, only);
    UncleanPrefixHasNoKeys(root, o, all);
    assert ToPage(ListPage(disk, o).acc) != IdealPage(o, all);
  }

  /** The text behind the last slash. */
  function LastPart(prefix: string): (r: string)
    ensures '/' !in r
  {
    match LastSlash(prefix) case None => prefix case Some(i) => prefix[i + 1..]
  }

  /** A prefix whose directory part can be a key, as the names of that directory and what
      is left. */
  lemma DirKeyNames(prefix: string) returns (names: seq<string>)
    requires HasDirKey(prefix)
    ensures DirNames(names) && prefix == KeyPrefix(Along("", names)) + LastPart(prefix)
  {
    hide UnescapeKey, EscapeKey, CleanPath, Clean, DirNames;
    match StartKey(prefix)
    case None =>
      names := [];
      assert "" + prefix == prefix;
      assert DirNames([]) by { NoDirNames(); }
    case Some(key) =>
      names := Clean(EscapeKey(key)).names;
      AlongClean(EscapeKey(key));
      EscapeKeyEmpty();
      assert prefix == prefix[..|key|] + "/" + prefix[|key| + 1..];
  }

  lemma NoDirNames()
    ensures DirNames([])
  {
  }

  /** Text on prefixes: one that ends at a slash lies in front of the last part. */
  lemma BeforeLastPart(prefix: string, dir: string, rest: string, y: string)
    requires prefix == dir + rest && '/' !in rest && HasPrefix(prefix, y) && (y == "" || y[|y| - 1] == '/')
    ensures HasPrefix(dir, y)
  {
    assert forall i :: |dir| <= i < |prefix| ==> prefix[i] == rest[i - |dir|] && rest[i - |dir|] in rest;
    assert y != "" ==> prefix[|y| - 1] == '/';
    assert y == prefix[..|y|];
  }

  /** What is shown below one path is shown below the other. */
  lemma ShownNames(path: string, names: seq<string>, m: nat, there: string, j: nat)
    requires DirNames(names) && m <= |names| && 0 < j <= |names[m..]|
    requires !Contains(path, TEMP_INFIX) && !Contains(Along("", names[..m]), TEMP_INFIX)
    requires Shown(Along("", names[..m]), there) && HasPrefix(there, KeyPrefix(Along("", names)))
    ensures !IsInternalPath(Along(path, names[m..][..j]))
  {
    hide UnescapeKey, EscapeKey, IsInternalPath, DirNames, Contains, Along, SameInternal, KeyPrefix;
    var here, e, upto := Along("", names[..m]), names[m..][..j], names[..m + j];
    DirNamesAreNames(names);
    assert upto[..m] == names[..m] && upto[m..] == e;
    AlongSplit("", upto, m);
    AlongKey(path, e);
    AlongKey(here, e);
    NoInfixSame(path, here);
    assert IsInternalPath(Along(path, e)) <==> IsInternalPath(Along("", upto)) by {
      SameAt(path, here, Along("", e));
    }
    if m + j < |names| {
      DirNamesFront(names, m + j);
    } else {
      assert upto == names;
    }
    StretchSplit(names, m + j);
    AlongKey("", names);
    AlongKey("", upto);
    DirNamesAreNames(upto);
    assert HasPrefix(there, KeyPrefix(Along("", upto))) by {
      PrefixOfSum(there, KeyPrefix(""), Stretch(upto), Stretch(names[m + j..]), KeyPrefix(Along("", names)));
    }
    KeyIsShown(here, e, Along("", upto), there);
  }

  lemma SameAt(p: string, q: string, r: string)
    requires SameInternal(p, q) && r != ""
    ensures IsInternalPath(ChildPath(p, r)) <==> IsInternalPath(ChildPath(q, r))
  {
    hide IsInternalPath;
  }

  lemma PrefixOfSum(t: string, x: string, y: string, z: string, w: string)
    requires HasPrefix(t, w) && w == x + (y + z)
    ensures HasPrefix(t, x + y)
  {
    assert w[..|x + y|] == x + y;
    assert t[..|w|] == w;
  }

  lemma KeyIsShown(here: string, e: seq<string>, path: string, there: string)
    requires e != [] && path == Along(here, e) && path != "" && EscapeKey(UnescapeKey(path)) == path
    requires KeyPrefix(path) == KeyPrefix(here) + Stretch(e)
    requires Shown(here, there) && HasPrefix(there, KeyPrefix(path))
    ensures !IsInternalPath(path)
  {
    hide UnescapeKey, EscapeKey, IsInternalPath, Along, Stretch;
    var i := |UnescapeKey(path)|;
    var t := UnescapeKey(path) + "/";
    assert there[..|t|] == t && t[i] == '/';
    assert there[..i] == UnescapeKey(path) && there[i] == '/';
    assert i >= |KeyPrefix(here)| by {
      StretchEnds(e);
      assert |KeyPrefix(path)| == |KeyPrefix(here)| + |Stretch(e)|;
    }
  }

  lemma StretchEnds(e: seq<string>)
    requires e != []
    ensures |Stretch(e)| >= 1
  {
    hide UnescapeKey;
  }

  lemma MisleadsInside(prefix: string)
    requires !CleanPath(StartPath(prefix)) && Clean(StartPath(prefix)).up == 0 && Misleads(prefix)
    ensures !AlwaysRight(prefix)
  {
    hide UnescapeKey, EscapeKey, IsInternalPath, DirNames, Along, CleanPath, Clean, StartPath, KeyPrefix, Contains,
         Shown, AlwaysRight, HasDirKey, Stretch, LastPart;
    var path := StartPath(prefix);
    var at, above := KeyPrefix(path), Clean(path).names;
    var here := Along("", above);
    if HasPrefix(at, prefix) {
      assert above[|above|..] == [] && above[..|above|] == above;
      AlongNothing(path);
      assert at + "" == at;
      InsideWitness(prefix, above, |above|, "");
    } else {
      var there := KeyPrefix(here) + prefix[|at|..];
      var names := DirKeyNames(there);
      var m, rest := |above|, LastPart(there);
      DirNamesAreNames(above);
      DirNamesAreNames(names);
      EndsWithSlash(above);
      BeforeLastPart(there, KeyPrefix(Along("", names)), rest, KeyPrefix(here));
      AncestorNames(names, above);
      CleanNames(path);
      NothingContains();
      AlongNoInfix("", above);
      forall j | 0 < j <= |names[m..]|
        ensures !IsInternalPath(Along(path, names[m..][..j]))
      {
        ShownNames(path, names, m, there, j);
      }
      AlongKey(path, names[m..]);
      AlongKey(here, names[m..]);
      AlongSplit("", names, m);
      SamePart(KeyPrefix(here), at, Stretch(names[m..]), rest, prefix);
      InsideWitness(prefix, names, m, rest);
    }
  }

  lemma AlongNothing(path: string)
    ensures Along(path, []) == path
  {
  }

  lemma SamePart(y: string, at: string, x: string, rest: string, prefix: string)
    requires HasPrefix(prefix, at) && y + prefix[|at|..] == (y + x) + rest
    ensures at + x + rest == prefix
  {
    var s := y + prefix[|at|..];
    assert s[|y|..] == prefix[|at|..];
    assert ((y + x) + rest)[|y|..] == x + rest;
  }

  // ---- above the bucket ----

  /** The directory above, with the empty bucket in it and a file where the path leads. */
  function Above(names: seq<string>, f: Node): (n: Node)
    ensures n.Dir?
  {
    var kids := Trunk("", names, [f]).kids;
    Dir("", [Dir(kids[0].name + "x", [])] + kids)
  }

  lemma {:induction false} TrunkIsTree(name: string, names: seq<string>, f: Node)
    requires AllNames(names) && f.File? && IsName(f.name)
    ensures FileSystemTree(Trunk(name, names, [f]))
    decreases |names|
  {
    if names != [] {
      TrunkIsTree(names[0], names[1..], f);
    }
  }

  lemma LongerName(name: string)
    requires IsName(name)
    ensures IsName(name + "x") && name + "x" != name
  {
    assert (name + "x")[|name|] == 'x';
  }

  lemma AboveIsTree(names: seq<string>, f: Node)
    requires AllNames(names) && f.File? && IsName(f.name)
    ensures FileSystemTree(Above(names, f))
  {
    hide IsName;
    TrunkIsTree("", names, f);
    LongerName(Trunk("", names, [f]).kids[0].name);
    assert FileSystemTree(Dir("b", []));
  }

  lemma LongerNames(name: string)
    ensures name + "x" != name
  {
    assert |name + "x"| == |name| + 1;
  }

  lemma {:induction false} AboveLookup(names: seq<string>, f: Node, m: nat)
    requires m <= |names| && f.File?
    ensures m > 0 ==> Lookup(Above(names, f), names[..m]) == Lookup(Trunk("", names, [f]), names[..m])
    decreases m
  {
    if m > 0 {
      assert names[..m][..m - 1] == names[..m - 1];
      if m == 1 {
        assert names[..m - 1] == [];
        LongerNames(names[0]);
        var k := Trunk("", names, [f]).kids[0];
        assert k.name == names[0];
        assert Above(names, f).kids[1..] == [k];
      } else {
        AboveLookup(names, f, m - 1);
      }
    }
  }

  lemma AboveHasFile(names: seq<string>, f: Node) returns (n: Node)
    requires f.File?
    ensures Lookup(Above(names, f), names) == Some(n) && n.Dir? && f in n.kids
  {
    hide Lookup;
    assert names[..|names|] == names && names[|names|..] == [];
    AboveLookup(names, f, |names|);
    TrunkLookup("", names, [f], |names|);
    if names == [] {
      LookupNothing(Above(names, f));
      n := Above(names, f);
      assert n.kids[1] == f;
    } else {
      n := Trunk(names[|names| - 1], [], [f]);
    }
  }

  lemma LookupNothing(n: Node)
    requires n.Dir?
    ensures Lookup(n, []) == Some(n)
  {
  }

  lemma MisleadsOutside(prefix: string)
    requires !CleanPath(StartPath(prefix)) && Clean(StartPath(prefix)).up > 0 && Misleads(prefix)
    ensures !AlwaysRight(prefix)
  {
    hide UnescapeKey, EscapeKey, IsInternalPath, Along, CleanPath, Clean, StartPath, KeyPrefix, Contains, Trunk,
         WellNamed, Tree.Walk, BlobSet, Lookup, Visit, FileSystemTree, IdealPage, IsName, AllNames, Shown, DirNames,
         HasDirKey, HexName;
    var path := StartPath(prefix);
    var at, names := KeyPrefix(path), Clean(path).names;
    var text := if HasPrefix(at, prefix) then "" else prefix[|at|..];
    var f := File(HexName(text + "a"), 1);
    HexNameIs(text + "a");
    CleanNames(path);
    AboveIsTree(names, f);
    var root := Dir("", []);
    var disk := Disk(root, [Above(names, f)]);
    EmptyRoot();
    AboveNests(names, f);
    var n := AboveHasFile(names, f);
    ReadRoot(disk);
    assert ReadDir(disk, path) == Some(n);
    var b := Blob(UnescapeKey(ChildPath(path, f.name)), 1);
    InternalSplit(path, f.name);
    WalkOfKid(n, path, f, b);
    FileKey(path, text);
    assert HasPrefix(b.key, prefix);
    var o := Options(prefix, "", "", 10);
    FilledVisit(o, n, path, Walked(EMPTY, 0), b);
    var all := OnlyBlob(root, prefix, b);
    UncleanPrefixHasNoKeys(root, o, all);
    assert ToPage(ListPage(disk, o).acc) != IdealPage(o, all);
  }

  lemma EmptyRoot()
    ensures WellNamed(Dir("", []), "") && FileSystemTree(Dir("", []))
    ensures BlobSet(Dir("", []), "") == {}
  {
  }

  lemma AboveNests(names: seq<string>, f: Node)
    ensures Nested(Disk(Dir("", []), [Above(names, f)]))
  {
    var disk := Disk(Dir("", []), [Above(names, f)]);
    var k := disk.above[0].kids[0];
    assert k in disk.above[0].kids && k.Dir? && k.kids == Level(disk, 0).kids;
  }

  // ---- the condition ----

  /** The pages of listings with a prefix are right in all buckets, with all tokens,
      delimiters and page sizes, if and only if the directory part of the prefix is a
      clean path or the prefix does not mislead. */
  lemma AlwaysRightIff(prefix: string)
    ensures AlwaysRight(prefix) <==> PrefixIsRight(prefix)
  {
    hide Misleads, CleanPath, StartPath, Clean, WellNamed, Enumerates, ListPage, IdealPage, FileSystemTree, Nested, ToPage;
    if PrefixIsRight(prefix) {
      forall disk: Disk, o: Options, all: seq<Blob> |
        o.prefix == prefix && o.pageSize >= 1 && FileSystem(disk) && Nested(disk) && WellNamed(disk.root, "")
        && Enumerates(all, disk.root, prefix)
        ensures ToPage(ListPage(disk, o).acc) == IdealPage(o, all)
      {
        PageIsRight(disk, o, all);
      }
    } else if Clean(StartPath(prefix)).up == 0 {
      MisleadsInside(prefix);
    } else {
      MisleadsOutside(prefix);
    }
  }

  // ---- two such prefixes ----

  lemma DotPath()
    ensures StartPath("./") == "." && Clean(".") == Place(0, [])
  {
    hide EscapeKey;
    NothingToEscape(".");
    assert "./"[..1] == ".";
    LastSlashIs("./", 1);
    assert LastSlash(".") == None;
  }

  lemma DotDotPath()
    ensures StartPath("../") == ".." && Clean("..") == Place(1, [])
  {
    hide EscapeKey;
    NothingToEscape("..");
    assert "../"[..2] == "..";
    LastSlashIs("../", 2);
    assert LastSlash("..") == None;
  }

  lemma DotsMislead()
    ensures Misleads("./") && Misleads("../")
  {
    hide UnescapeKey, EscapeKey, StartPath, Clean, HasDirKey, Shown;
    DotPath();
    DotDotPath();
    ReadsPlain(".");
    ReadsPlain("..");
    NoDirNames();
    assert "." + "/" == "./" && ".." + "/" == "../";
  }

  lemma DotPage(o: Options, k: Node)
    requires o == Options("./", "", "", 10) && k == File("a", 1)
    ensures Visit(o, Dir("", [k]), ".", Walked(EMPTY, 0)).acc == Acc([Object("./a", false, 1)], "", false)
  {
    hide UnescapeKey, IsInternalPath, Children, VisibleKids;
    var root := Dir("", [k]);
    ReadsPlain("./a");
    NotInternal("./a");
    assert "." + "/" + "a" == "./a";
    OneChild(".", k);
    var w := Walked(EMPTY, 1);
    assert Visit(o, root, ".", Walked(EMPTY, 0)) == VisitKids(o, root, [k], ".", w);
    assert VisitKids(o, root, [k], ".", w) == VisitKids(o, root, [k][1..], ".", VisitKid(o, k, ".", w));
  }

  /** The prefix "./" makes the walk read the bucket's own directory, and report keys that
      are not in the bucket. */
  lemma DotPrefixWitness()
    ensures var disk := Disk(Dir("", [File("a", 1)]), []);
            && WellNamed(disk.root, "") && Misleads("./")
            && ToPage(ListPage(disk, Options("./", "", "", 10)).acc) == Page([Object("./a", false, 1)], "")
  {
    hide UnescapeKey, EscapeKey, IsInternalPath, Clean, StartPath, Visit, Misleads, VisibleKids, DistinctSortKeys;
    var k := File("a", 1);
    var disk := Disk(Dir("", [k]), []);
    DotPath();
    DotsMislead();
    ReadsPlain("a");
    OneSortKey("", k);
    DotPage(Options("./", "", "", 10), k);
    LookupNothing(disk.root);
    assert ReadDir(disk, ".") == Some(disk.root);
  }

  lemma ParentPage(o: Options, above: Node)
    requires o == Options("../", "", "", 10) && above == Dir("", [Dir("b", []), File("x", 1)])
    ensures Visit(o, above, "..", Walked(EMPTY, 0)).acc == Acc([Object("../x", false, 1)], "", false)
  {
    hide UnescapeKey, IsInternalPath, Children, VisibleKids;
    var d, k := Dir("b", []), File("x", 1);
    ReadsPlain("../b");
    ReadsPlain("../x");
    NotInternal("../b");
    NotInternal("../x");
    assert ".." + "/" + "b" == "../b" && ".." + "/" + "x" == "../x";
    TwoEntries(d, k);
    var w := Walked(EMPTY, 1);
    EmptyDirectory(o, w);
    var v := VisitKid(o, d, "..", w);
    assert [d, k][1..] == [k] && [k][1..] == [];
    assert Visit(o, above, "..", Walked(EMPTY, 0)) == VisitKids(o, above, [d, k], "..", w);
    assert VisitKids(o, above, [d, k], "..", w) == VisitKids(o, above, [k], "..", v);
    assert VisitKids(o, above, [k], "..", v) == VisitKids(o, above, [], "..", VisitKid(o, k, "..", v));
  }

  /** And "../" the directory above, with what is there beside the bucket. */
  lemma ParentPrefixWitness()
    ensures var disk := Disk(Dir("", []), [Dir("", [Dir("b", []), File("x", 1)])]);
            && FileSystem(disk) && Nested(disk) && WellNamed(disk.root, "") && Misleads("../")
            && ToPage(ListPage(disk, Options("../", "", "", 10)).acc) == Page([Object("../x", false, 1)], "")
  {
    hide UnescapeKey, EscapeKey, IsInternalPath, Clean, StartPath, Visit, Misleads;
    var d, k := Dir("b", []), File("x", 1);
    var above := Dir("", [d, k]);
    var disk := Disk(Dir("", []), [above]);
    DotDotPath();
    DotsMislead();
    EmptyRoot();
    assert d in above.kids && d.kids == Level(disk, 0).kids;
    ParentPage(Options("../", "", "", 10), above);
    LookupNothing(above);
    assert ReadDir(disk, "..") == Some(above);
  }

  lemma TwoEntries(d: Node, k: Node)
    requires d == Dir("b", []) && k == File("x", 1)
    requires Visible("..", d) && Visible("..", k)
    requires UnescapeKey("../b") == "../b" && UnescapeKey("../x") == "../x"
    ensures Children("..", [d, k]) == [d, k]
  {
    hide IsInternalPath, UnescapeKey, SortKey, Less, Visible;
    OneChild("..", d);
    assert [d, k][..1] == [d] && [d, k][1] == k;
    assert VisibleKids("..", [d, k]) == [d] + [k];
    TwoSortKeys(d, k);
    SortOne("..", d);
    assert Sort("..", [d, k]) == Insert("..", k, [d]);
    assert Insert("..", k, [d]) == [d] + Insert("..", k, [d][1..]);
  }

  lemma TwoSortKeys(d: Node, k: Node)
    requires d == Dir("b", []) && k == File("x", 1)
    requires UnescapeKey("../b") == "../b" && UnescapeKey("../x") == "../x"
    ensures !Less(SortKey("..", k), SortKey("..", d))
  {
    hide UnescapeKey;
    assert ".." + "/" + "b" == "../b" && ".." + "/" + "x" == "../x";
    assert "../b" + "/" == "../b/" && "../x" + "" == "../x";
    assert "../x"[1..] == "./x" && "./x"[1..] == "/x" && "/x"[1..] == "x";
    assert "../b/"[1..] == "./b/" && "./b/"[1..] == "/b/" && "/b/"[1..] == "b/";
  }

  lemma SortOne(path: string, k: Node)
    ensures Sort(path, [k]) == [k]
  {
    hide SortKey;
    assert [k][..0] == [] && Sort(path, []) == [];
  }

  lemma EmptyDirectory(o: Options, w: Walked)
    requires UnescapeKey("../b") == "../b" && o == Options("../", "", "", 10)
    ensures VisitKid(o, Dir("b", []), "..", w).acc == w.acc
  {
    hide UnescapeKey;
    assert ".." + "/" + "b" == "../b" && "../b" + "/" == "../b/";
    var d := Dir("b", []);
    assert Children("../b", d.kids) == [];
    assert Visit(o, d, "../b", w) == VisitKids(o, d, [], "../b", w.(dirsRead := w.dirsRead + 1));
  }

  lemma NotInternal(s: string)
    requires |s| <= 5
    ensures !IsInternalPath(s)
  {
  }
}
