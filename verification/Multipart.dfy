/** The generic multipart uploader over a bucket (bucket.go), each call as a
    function of the store: its result, and the states that the store passes
    through. */
module Multipart {
  import opened Strings
  import opened PartNames
  import opened Staging
  import opened Parts

  datatype Options = Options(contentType: string, cacheControl: string, contentDisposition: string,
                             contentEncoding: string, contentLanguage: string, metadata: map<string, string>)

  /** An object: bytes with the options of the writer, or a manifest document. */
  datatype Content = Raw(bytes: Bytes, opts: Option<Options>) | Json(key: string, opts: Option<Options>)

  type Store = map<string, Content>

  /** A bucketUploader. */
  datatype Handle = Handle(key: string, id: string, opts: Option<Options>, finished: bool)

  /** What an io.Reader will deliver: bytes, and then the end or an error. */
  datatype Reader = Reader(bytes: Bytes, fails: bool)

  /** The result of a call, and the states of the store after each write of it. */
  datatype Outcome<+T> = Outcome(result: Result<T>, trace: seq<Store>)

  const CONSTRAINTS := Constraints(0, 0, MAX_PART_NUMBER, true)

  function Final(s: Store, trace: seq<Store>): Store {
    if trace == [] then s else trace[|trace| - 1]
  }

  function Prefix(h: Handle): string {
    StagingPrefix(h.key, h.id)
  }

  // ---- listing ----

  predicate IsLeast(m: string, keys: set<string>) {
    m in keys && forall k :: k in keys ==> AtMost(m, k)
  }

  lemma {:induction false} LeastExists(keys: set<string>)
    requires keys != {}
    ensures exists m :: IsLeast(m, keys)
    decreases |keys|
  {
    hide Less;
    var k :| k in keys;
    if keys == {k} {
      assert IsLeast(k, keys);
    } else {
      var rest := keys - {k};
      assert keys == {k} + rest;
      LeastExists(rest);
      var m :| IsLeast(m, rest);
      LessTotal(k, m);
      if Less(k, m) {
        forall x | x in keys ensures AtMost(k, x) {
          if x != k {
            LessAtMost(k, m, x);
          }
        }
        assert IsLeast(k, keys);
      } else {
        assert IsLeast(m, keys);
      }
    }
  }

  lemma LeastUnique(m: string, n: string, keys: set<string>)
    requires IsLeast(m, keys) && IsLeast(n, keys)
    ensures m == n
  {
    hide Less;
    if m != n {
      LessAsymmetric(m, n);
    }
  }

  function Least(keys: set<string>): string
    requires keys != {}
  {
    LeastExists(keys);
    assert forall m, n :: IsLeast(m, keys) && IsLeast(n, keys) ==> m == n by {
      forall m, n | IsLeast(m, keys) && IsLeast(n, keys) ensures m == n {
        LeastUnique(m, n, keys);
      }
    }
    var m :| IsLeast(m, keys);
    m
  }

  /** blob.Bucket.List: the keys in lexical order. */
  function Ordered(keys: set<string>): seq<string>
    decreases |keys|
  {
    if keys == {} then []
    else
      var m := Least(keys);
      [m] + Ordered(keys - {m})
  }

  predicate NoRepeats(keys: seq<string>) {
    forall i, j :: 0 <= i < j < |keys| ==> keys[i] != keys[j]
  }

  lemma {:induction false} OrderedSpec(keys: set<string>)
    ensures forall k :: k in Ordered(keys) <==> k in keys
    ensures NoRepeats(Ordered(keys))
    decreases |keys|
  {
    hide Least;
    if keys != {} {
      var m := Least(keys);
      LeastIn(keys);
      OrderedSpec(keys - {m});
      assert Ordered(keys) == [m] + Ordered(keys - {m});
    }
  }

  lemma LeastIn(keys: set<string>)
    requires keys != {}
    ensures Least(keys) in keys
  {
  }

  function StagedKeys(s: Store, prefix: string): seq<string> {
    Ordered(set k | k in s && HasPrefix(k, prefix))
  }

  function Size(c: Content): nat {
    match c
    case Raw(bytes, _) => |bytes|
    case Json(_, _) => 0
  }

  /** The part that an object below the staging prefix holds, if any. */
  function PartOf(s: Store, prefix: string, k: string): Option<Part>
    requires k in s && HasPrefix(k, prefix)
  {
    var name := k[|prefix|..];
    if name == MANIFEST_NAME then None
    else
      match ParsePartName(name)
      case None => None
      case Some(n) => Some(Part(n, Size(s[k]), k))
  }

  function PartsOf(s: Store, prefix: string, keys: seq<string>): seq<Part>
    requires forall k :: k in keys ==> k in s && HasPrefix(k, prefix)
  {
    if keys == [] then []
    else
      assert keys[0] in keys;
      (match PartOf(s, prefix, keys[0]) case None => [] case Some(p) => [p]) + PartsOf(s, prefix, keys[1..])
  }

  lemma StagedKeysSpec(s: Store, prefix: string)
    ensures forall k :: k in StagedKeys(s, prefix) <==> k in s && HasPrefix(k, prefix)
    ensures NoRepeats(StagedKeys(s, prefix))
  {
    OrderedSpec(set k | k in s && HasPrefix(k, prefix));
  }

  // ---- the calls ----

  function NewUpload(s: Store, key: string, id: string, opts: Option<Options>): Outcome<Handle> {
    if key == "" then Outcome(Err(EmptyKey), [])
    else if Contains(key, STAGING_INFIX) then Outcome(Err(ReservedInfix), [])
    else Outcome(Ok(Handle(key, id, opts, false)), [s[ManifestKey(key, id) := Json(key, opts)]])
  }

  function OpenUpload(s: Store, key: string, id: string): Result<Handle> {
    if key == "" || id == "" then Err(UploadNotFound)
    else if ManifestKey(key, id) !in s then Err(UploadNotFound)
    else
      match s[ManifestKey(key, id)]
      case Raw(_, _) => Err(UnreadableManifest)
      case Json(k, opts) => if k != key then Err(UploadNotFound) else Ok(Handle(key, id, opts, false))
  }

  function UploadPart(s: Store, h: Handle, number: int, r: Reader): Outcome<Part> {
    if h.finished then Outcome(Err(Closed), [])
    else
      match ValidatePartNumber(number, CONSTRAINTS)
      case Some(e) => Outcome(Err(e), [])
      case None =>
        var k := PartKey(h.key, h.id, number);
        var stored := s[k := Raw(r.bytes, None)];
        if r.fails then Outcome(Err(ReadFailed), [stored, stored - {k}])
        else Outcome(Ok(Part(number, |r.bytes|, k)), [stored])
  }

  function ListParts(s: Store, h: Handle): Result<seq<Part>> {
    StagedKeysSpec(s, Prefix(h));
    var ps := PartsOf(s, Prefix(h), StagedKeys(s, Prefix(h)));
    if ps == [] then Ok([]) else SortParts(ps)
  }

  /** The first part whose tag belongs to another upload. */
  function FirstForeign(h: Handle, ps: seq<Part>): Option<int> {
    if ps == [] then None
    else if ps[0].tag != "" && ps[0].tag != PartKey(h.key, h.id, ps[0].number) then Some(ps[0].number)
    else FirstForeign(h, ps[1..])
  }

  datatype Copied = Copied(bytes: Bytes, missing: Option<int>)

  function BytesOf(c: Content): Bytes {
    match c
    case Raw(bytes, _) => bytes
    case Json(_, _) => []
  }

  /** The copy loop of Commit: what has been written when it ends. */
  function CopyParts(s: Store, h: Handle, ps: seq<Part>): Copied {
    if ps == [] then Copied([], None)
    else
      var k := PartKey(h.key, h.id, ps[0].number);
      if k !in s then Copied([], Some(ps[0].number))
      else
        var rest := CopyParts(s, h, ps[1..]);
        rest.(bytes := BytesOf(s[k]) + rest.bytes)
  }

  /** Commit.  A part that turns out to be missing ends it with an error, but the
      writer is closed nevertheless, which publishes what had been copied. */
  function Commit(s: Store, h: Handle, parts: seq<Part>): Outcome<()> {
    if h.finished then Outcome(Err(Closed), [])
    else
      match SortParts(parts)
      case Err(e) => Outcome(Err(e), [])
      case Ok(ordered) =>
        match FirstForeign(h, ordered)
        case Some(n) => Outcome(Err(ForeignPart(n)), [])
        case None =>
          var c := CopyParts(s, h, ordered);
          var published := s[h.key := Raw(c.bytes, h.opts)];
          match c.missing
          case Some(n) => Outcome(Err(MissingPart(n)), [published])
          case None => Outcome(Ok(()), [published] + DeleteStaged(published, h))
  }

  function Abort(s: Store, h: Handle): Outcome<()> {
    if h.finished then Outcome(Ok(()), []) else Outcome(Ok(()), DeleteStaged(s, h))
  }

  function Deletions(s: Store, keys: seq<string>): seq<Store> {
    if keys == [] then [] else [s - {keys[0]}] + Deletions(s - {keys[0]}, keys[1..])
  }

  function Without(keys: seq<string>, k: string): seq<string> {
    if keys == [] then []
    else (if keys[0] == k then [] else [keys[0]]) + Without(keys[1..], k)
  }

  /** deleteStagedErr: all staged objects, the manifest last. */
  function DeleteStaged(s: Store, h: Handle): seq<Store> {
    var manifest := ManifestKey(h.key, h.id);
    var ds := Deletions(s, Without(StagedKeys(s, Prefix(h)), manifest));
    ds + [Final(s, ds) - {manifest}]
  }

  // ---- what deletion does ----

  /** The store without an upload's objects. */
  function RemovePrefix(s: Store, prefix: string): Store {
    map k | k in s && !HasPrefix(k, prefix) :: s[k]
  }

  lemma {:induction false} WithoutSpec(keys: seq<string>, k: string)
    ensures forall x :: x in Without(keys, k) <==> x in keys && x != k
  {
    if keys != [] {
      WithoutSpec(keys[1..], k);
      assert keys == [keys[0]] + keys[1..];
    }
  }

  lemma {:induction false} DeletionsSpec(s: Store, keys: seq<string>)
    ensures Final(s, Deletions(s, keys)) == s - (set k | k in keys)
    ensures forall t :: t in Deletions(s, keys) ==> forall k :: k in s && k !in keys ==> k in t && t[k] == s[k]
    ensures forall t :: t in Deletions(s, keys) ==> forall k :: k in t ==> k in s && t[k] == s[k]
    decreases |keys|
  {
    if keys != [] {
      var s1 := s - {keys[0]};
      DeletionsSpec(s1, keys[1..]);
      var ds := Deletions(s1, keys[1..]);
      assert Deletions(s, keys) == [s1] + ds;
      assert Final(s, Deletions(s, keys)) == Final(s1, ds);
      assert (set k | k in keys) == {keys[0]} + set k | k in keys[1..];
      assert keys == [keys[0]] + keys[1..];
    } else {
      assert s - (set k | k in keys) == s;
    }
  }

  /** Deleting ends with no staged object of the upload and all others as before. */
  lemma DeleteStagedFinal(s: Store, h: Handle)
    ensures Final(s, DeleteStaged(s, h)) == RemovePrefix(s, Prefix(h))
  {
    hide Deletions, Without, StagedKeys, ManifestKey, Prefix;
    var manifest := ManifestKey(h.key, h.id);
    var ks := Without(StagedKeys(s, Prefix(h)), manifest);
    StagedKeysSpec(s, Prefix(h));
    WithoutSpec(StagedKeys(s, Prefix(h)), manifest);
    DeletionsSpec(s, ks);
    ManifestHasPrefix(h);
    var end := (s - (set k | k in ks)) - {manifest};
    assert Final(s, DeleteStaged(s, h)) == end;
    assert forall k :: k in end <==> k in s && !HasPrefix(k, Prefix(h));
    assert end == RemovePrefix(s, Prefix(h));
  }

  lemma ManifestHasPrefix(h: Handle)
    ensures HasPrefix(ManifestKey(h.key, h.id), Prefix(h))
  {
  }

  /** The manifest goes last: at every moment of the deletion, either it is still
      there or nothing of the upload is; and nothing else is touched. */
  lemma ManifestGoesLast(s: Store, h: Handle, t: Store)
    requires t in DeleteStaged(s, h)
    ensures ManifestKey(h.key, h.id) in s ==>
              ManifestKey(h.key, h.id) in t || forall k :: k in t ==> !HasPrefix(k, Prefix(h))
    ensures forall k :: k in s && !HasPrefix(k, Prefix(h)) ==> k in t && t[k] == s[k]
    ensures forall k :: k in t ==> k in s && t[k] == s[k]
  {
    hide Deletions, Without, StagedKeys, ManifestKey, Prefix;
    var manifest := ManifestKey(h.key, h.id);
    var ks := Without(StagedKeys(s, Prefix(h)), manifest);
    StagedKeysSpec(s, Prefix(h));
    WithoutSpec(StagedKeys(s, Prefix(h)), manifest);
    DeletionsSpec(s, ks);
    ManifestHasPrefix(h);
    DeleteStagedFinal(s, h);
    if t !in Deletions(s, ks) {
      assert t == Final(s, DeleteStaged(s, h));
    }
  }

  // ---- commit that fails ----

  /** Before the destination is opened for writing, Commit checks everything that
      it can without reading a part: a handle in use, some parts, no number twice,
      no foreign tag. */
  predicate PassesChecks(h: Handle, parts: seq<Part>) {
    && !h.finished && SortParts(parts).Ok?
    && FirstForeign(h, SortParts(parts).value).None?
  }

  /** "Nothing is readable at the destination key until Commit returns
      successfully" is true of a failing Commit if and only if it fails a check, or
      what it had copied before the missing part is there already. */
  lemma FailedCommitIff(s: Store, h: Handle, parts: seq<Part>)
    requires Commit(s, h, parts).result.Err?
    ensures Final(s, Commit(s, h, parts).trace) == s
       <==> !PassesChecks(h, parts)
            || (h.key in s && s[h.key] == Raw(CopyParts(s, h, SortParts(parts).value).bytes, h.opts))
  {
    hide SortParts, FirstForeign, CopyParts, DeleteStaged;
    if PassesChecks(h, parts) {
      var c := CopyParts(s, h, SortParts(parts).value);
      var published := s[h.key := Raw(c.bytes, h.opts)];
      assert Final(s, Commit(s, h, parts).trace) == published;
      assert published[h.key] == Raw(c.bytes, h.opts);
      if h.key in s && s[h.key] == Raw(c.bytes, h.opts) {
        assert published == s;
      }
    }
  }

  /** A case of it: part 1 is missing, and the empty object is published. */
  lemma FailedCommitWitness(id: string)
    ensures var h := Handle("k", id, None, false);
            var c := Commit(map[], h, [Part(1, 1, "")]);
            c.result == Err(MissingPart(1)) && Final(map[], c.trace) == map["k" := Raw([], None)]
  {
    hide PartKey;
    var h := Handle("k", id, None, false);
    var p := Part(1, 1, "");
    assert [p][..0] == [] && SortByNumber([]) == [];
    assert SortByNumber([p]) == InsertPart(p, []) == [p];
    assert FirstDuplicate([p], 1) == None;
    assert SortParts([p]) == Ok([p]);
    assert FirstForeign(h, [p]) == FirstForeign(h, [p][1..]);
    var s: Store := map[];
    assert CopyParts(s, h, [p]) == Copied([], Some(1));
  }
}
