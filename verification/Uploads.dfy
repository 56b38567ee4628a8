/** What the uploader's objects mean: each upload holds one content per part number,
    the last one that was stored.  Every call keeps the store in step with that
    meaning, whatever the handles and their interleaving. */
module Uploads {
  import opened Strings
  import opened PartNames
  import opened Staging
  import opened Parts
  import opened Multipart

  /** One upload: does its manifest exist, and what has been stored per number. */
  datatype Upload = Upload(live: bool, opts: Option<Options>, parts: map<int, Bytes>)

  type UploadId = (string, string)

  /** The meaning of a store: destination objects, and uploads. */
  datatype State = State(blobs: Store, uploads: map<UploadId, Upload>)

  predicate WellFormed(a: State) {
    && (forall k :: k in a.blobs ==> !Contains(k, STAGING_INFIX))
    && (forall u :: u in a.uploads ==> IsUpload(u.0, u.1))
    && (forall u, n :: u in a.uploads && n in a.uploads[u].parts ==> 1 <= n <= MAX_PART_NUMBER)
  }

  predicate HoldsManifest(a: State, u: UploadId, k: string) {
    u in a.uploads && a.uploads[u].live && k == ManifestKey(u.0, u.1)
  }

  predicate HoldsPart(a: State, u: UploadId, n: int, k: string) {
    u in a.uploads && n in a.uploads[u].parts && k == PartKey(u.0, u.1, n)
  }

  /** The store is in step with its meaning. */
  ghost predicate InStep(s: Store, a: State) {
    && WellFormed(a)
    && (forall k :: k in a.blobs ==> k in s && s[k] == a.blobs[k])
    && (forall u, k :: HoldsManifest(a, u, k) ==> k in s && s[k] == Json(u.0, a.uploads[u].opts))
    && (forall u, n, k :: HoldsPart(a, u, n, k) ==> k in s && s[k] == Raw(a.uploads[u].parts[n], None))
    && (forall k :: k in s ==>
          k in a.blobs || (exists u :: HoldsManifest(a, u, k)) || (exists u, n :: HoldsPart(a, u, n, k)))
  }

  function WithUpload(a: State, u: UploadId, up: Upload): State {
    a.(uploads := a.uploads[u := up])
  }

  lemma PartsAreInts(a: State, u: UploadId, n: int)
    requires WellFormed(a) && u in a.uploads && n in a.uploads[u].parts
    ensures IsInt64(n) && 1 <= n <= MAX_PART_NUMBER && IsUpload(u.0, u.1)
  {
  }

  // ---- what there is below one upload's prefix ----

  /** The objects below an upload's prefix are its own. */
  lemma OwnObjects(s: Store, a: State, u: UploadId, k: string)
    requires InStep(s, a) && IsUpload(u.0, u.1)
    requires k in s && HasPrefix(k, StagingPrefix(u.0, u.1))
    ensures HoldsManifest(a, u, k) || exists n :: HoldsPart(a, u, n, k)
  {
    hide IsUpload, StagingPrefix, PartName, Contains;
    if k in a.blobs {
      DestinationIsNotStaged(k, u.0, u.1);
    } else if exists v :: HoldsManifest(a, v, k) {
      var v :| HoldsManifest(a, v, k);
      UploadsAreApart(u.0, u.1, v.0, v.1, MANIFEST_NAME);
    } else {
      var v, n :| HoldsPart(a, v, n, k);
      UploadsAreApart(u.0, u.1, v.0, v.1, PartName(n));
    }
  }

  lemma NotOthers(a: State, u: UploadId, v: UploadId, n: int, k: string)
    requires WellFormed(a) && IsUpload(u.0, u.1) && HasPrefix(k, StagingPrefix(u.0, u.1))
    ensures HoldsManifest(a, v, k) ==> u == v
    ensures HoldsPart(a, v, n, k) ==> u == v
    ensures k !in a.blobs
  {
    hide IsUpload, StagingPrefix, PartName, Contains;
    if k in a.blobs {
      DestinationIsNotStaged(k, u.0, u.1);
    }
    if HoldsManifest(a, v, k) {
      UploadsAreApart(u.0, u.1, v.0, v.1, MANIFEST_NAME);
    }
    if HoldsPart(a, v, n, k) {
      UploadsAreApart(u.0, u.1, v.0, v.1, PartName(n));
    }
  }

  lemma KeysHavePrefix(u: UploadId, n: int)
    ensures HasPrefix(ManifestKey(u.0, u.1), StagingPrefix(u.0, u.1))
    ensures HasPrefix(PartKey(u.0, u.1, n), StagingPrefix(u.0, u.1))
  {
    hide PartName;
  }

  // ---- each call ----

  /** A new manifest replaces nothing that the store holds for anyone. */
  lemma NewManifestKeeps(s: Store, a: State, u: UploadId, opts: Option<Options>)
    requires InStep(s, a) && IsUpload(u.0, u.1) && u !in a.uploads
    ensures var b := WithUpload(a, u, Upload(true, opts, map[]));
            var t := s[ManifestKey(u.0, u.1) := Json(u.0, opts)];
            && (forall k :: k in b.blobs ==> k in t && t[k] == b.blobs[k])
            && (forall v, k :: HoldsManifest(b, v, k) ==> k in t && t[k] == Json(v.0, b.uploads[v].opts))
            && (forall v, n, k :: HoldsPart(b, v, n, k) ==> k in t && t[k] == Raw(b.uploads[v].parts[n], None))
  {
    hide StagingPrefix, PartName, Contains, IsHexId, ManifestKey, PartKey, WellFormed;
    var b := WithUpload(a, u, Upload(true, opts, map[]));
    var m := ManifestKey(u.0, u.1);
    var t := s[m := Json(u.0, opts)];
    KeysHavePrefix(u, 0);
    NotOthers(a, u, u, 0, m);
    forall v, k | HoldsManifest(b, v, k)
      ensures k in t && t[k] == Json(v.0, b.uploads[v].opts)
    {
      if v != u {
        assert HoldsManifest(a, v, k);
        NotOthers(a, u, v, 0, m);
      }
    }
    forall v, n, k | HoldsPart(b, v, n, k)
      ensures k in t && t[k] == Raw(b.uploads[v].parts[n], None)
    {
      assert HoldsPart(a, v, n, k);
      NotOthers(a, u, v, n, m);
    }
  }

  lemma NewUploadInStep(s: Store, a: State, key: string, id: string, opts: Option<Options>)
    requires InStep(s, a) && IsHexId(id) && (key, id) !in a.uploads
    requires NewUpload(s, key, id, opts).result.Ok?
    ensures InStep(Final(s, NewUpload(s, key, id, opts).trace),
                   WithUpload(a, (key, id), Upload(true, opts, map[])))
  {
    hide StagingPrefix, PartName, Contains, IsHexId, ManifestKey, PartKey;
    var u := (key, id);
    var b := WithUpload(a, u, Upload(true, opts, map[]));
    var m := ManifestKey(key, id);
    var t := s[m := Json(key, opts)];
    NewManifestKeeps(s, a, u, opts);
    forall k | k in t
      ensures k in b.blobs || (exists v :: HoldsManifest(b, v, k)) || (exists v, n :: HoldsPart(b, v, n, k))
    {
      if k == m {
        assert HoldsManifest(b, u, k);
      } else {
        CarryOver(s, a, b, k);
      }
    }
  }

  /** An object that was there is accounted for in b if b keeps what a has. */
  lemma CarryOver(s: Store, a: State, b: State, k: string)
    requires InStep(s, a) && k in s
    requires k in a.blobs ==> k in b.blobs
    requires forall v :: HoldsManifest(a, v, k) ==> HoldsManifest(b, v, k)
    requires forall v, n :: HoldsPart(a, v, n, k) ==> HoldsPart(b, v, n, k)
    ensures k in b.blobs || (exists v :: HoldsManifest(b, v, k)) || (exists v, n :: HoldsPart(b, v, n, k))
  {
    hide HoldsManifest, HoldsPart, WellFormed;
    if exists v :: HoldsManifest(a, v, k) {
      var v :| HoldsManifest(a, v, k);
      assert HoldsManifest(b, v, k);
    } else if exists v, n :: HoldsPart(a, v, n, k) {
      var v, n :| HoldsPart(a, v, n, k);
      assert HoldsPart(b, v, n, k);
    }
  }

  /** Open finds an upload for a key and an ID, whatever strings they are, exactly
      if there is a live upload of that very key and ID; and it recovers the options
      that the upload was created with. */
  lemma OpenIsExact(s: Store, a: State, key: string, id: string)
    requires InStep(s, a)
    ensures OpenUpload(s, key, id).Ok? <==> (key, id) in a.uploads && a.uploads[(key, id)].live
    ensures OpenUpload(s, key, id).Ok? ==>
              OpenUpload(s, key, id).value == Handle(key, id, a.uploads[(key, id)].opts, false)
    ensures OpenUpload(s, key, id).Err? ==> OpenUpload(s, key, id).error == UploadNotFound
  {
    hide StagingPrefix, PartName, Contains, ManifestKey, PartKey;
    var m := ManifestKey(key, id);
    if (key, id) in a.uploads && a.uploads[(key, id)].live {
      assert HoldsManifest(a, (key, id), m);
    } else if m in s {
      if m in a.blobs {
        StagedIsNoDestination(key, id, MANIFEST_NAME);
        assert m == StagingPrefix(key, id) + MANIFEST_NAME by { ManifestKeyIs(key, id); }
      } else if exists v :: HoldsManifest(a, v, m) {
        var v :| HoldsManifest(a, v, m);
        SameManifest(key, id, v.0, v.1);
      } else {
        var v, n :| HoldsPart(a, v, n, m);
        ManifestIsNoPart(key, id, v.0, v.1, n);
      }
    }
  }

  lemma ManifestKeyIs(key: string, id: string)
    ensures ManifestKey(key, id) == StagingPrefix(key, id) + MANIFEST_NAME
  {
  }

  /** Storing a part, or failing to, changes that part's content only. */
  function StorePart(up: Upload, number: int, r: Reader): Upload {
    if r.fails then up.(parts := up.parts - {number}) else up.(parts := up.parts[number := r.bytes])
  }

  lemma StoreOnePart(s: Store, a: State, u: UploadId, number: int, bytes: Bytes)
    requires InStep(s, a) && u in a.uploads && 1 <= number <= MAX_PART_NUMBER
    ensures InStep(s[PartKey(u.0, u.1, number) := Raw(bytes, None)],
                   WithUpload(a, u, a.uploads[u].(parts := a.uploads[u].parts[number := bytes])))
  {
    hide StagingPrefix, PartName, Contains, IsUpload, ManifestKey, PartKey;
    var p := PartKey(u.0, u.1, number);
    var b := WithUpload(a, u, a.uploads[u].(parts := a.uploads[u].parts[number := bytes]));
    var t := s[p := Raw(bytes, None)];
    KeysHavePrefix(u, number);
    forall v, k | HoldsManifest(b, v, k)
      ensures k in t && t[k] == Json(v.0, b.uploads[v].opts)
    {
      assert HoldsManifest(a, v, k);
      ManifestIsNoPart(v.0, v.1, u.0, u.1, number);
    }
    forall v, n, k | HoldsPart(b, v, n, k)
      ensures k in t && t[k] == Raw(b.uploads[v].parts[n], None)
    {
      if k == p {
        PartKeysDiffer(v.0, v.1, n, u.0, u.1, number);
      } else {
        assert HoldsPart(a, v, n, k);
      }
    }
    NotOthers(a, u, u, number, p);
    forall k | k in t
      ensures k in b.blobs || (exists v :: HoldsManifest(b, v, k)) || (exists v, n :: HoldsPart(b, v, n, k))
    {
      if k == p {
        assert HoldsPart(b, u, number, k);
      } else {
        CarryOver(s, a, b, k);
      }
    }
  }

  lemma RemoveOnePart(s: Store, a: State, u: UploadId, number: int)
    requires InStep(s, a) && u in a.uploads && 1 <= number <= MAX_PART_NUMBER
    ensures InStep(s - {PartKey(u.0, u.1, number)},
                   WithUpload(a, u, a.uploads[u].(parts := a.uploads[u].parts - {number})))
  {
    hide StagingPrefix, PartName, Contains, IsUpload, ManifestKey, PartKey;
    var p := PartKey(u.0, u.1, number);
    var b := WithUpload(a, u, a.uploads[u].(parts := a.uploads[u].parts - {number}));
    var t := s - {p};
    KeysHavePrefix(u, number);
    forall v, k | HoldsManifest(b, v, k)
      ensures k in t && t[k] == Json(v.0, b.uploads[v].opts)
    {
      assert HoldsManifest(a, v, k);
      ManifestIsNoPart(v.0, v.1, u.0, u.1, number);
    }
    forall v, n, k | HoldsPart(b, v, n, k)
      ensures k in t && t[k] == Raw(b.uploads[v].parts[n], None)
    {
      assert HoldsPart(a, v, n, k);
      if k == p {
        PartKeysDiffer(v.0, v.1, n, u.0, u.1, number);
      }
    }
    NotOthers(a, u, u, number, p);
    forall k | k in t
      ensures k in b.blobs || (exists v :: HoldsManifest(b, v, k)) || (exists v, n :: HoldsPart(b, v, n, k))
    {
      CarryOver(s, a, b, k);
    }
  }

  lemma UploadPartInStep(s: Store, a: State, h: Handle, number: int, r: Reader)
    requires InStep(s, a) && (h.key, h.id) in a.uploads
    ensures var o := UploadPart(s, h, number, r);
            o.trace == [] || InStep(Final(s, o.trace), WithUpload(a, (h.key, h.id), StorePart(a.uploads[(h.key, h.id)], number, r)))
  {
    hide InStep, PartKey;
    var u := (h.key, h.id);
    if !h.finished && 1 <= number <= MAX_PART_NUMBER {
      StoreOnePart(s, a, u, number, r.bytes);
      if r.fails {
        var b := WithUpload(a, u, a.uploads[u].(parts := a.uploads[u].parts[number := r.bytes]));
        RemoveOnePart(s[PartKey(u.0, u.1, number) := Raw(r.bytes, None)], b, u, number);
        assert a.uploads[u].parts[number := r.bytes] - {number} == a.uploads[u].parts - {number};
        assert b.uploads[u := a.uploads[u].(parts := a.uploads[u].parts - {number})]
            == a.uploads[u := a.uploads[u].(parts := a.uploads[u].parts - {number})];
      }
    }
  }

  /** Removing everything below an upload's prefix ends that upload and no other. */
  lemma RemovePrefixInStep(s: Store, a: State, u: UploadId)
    requires InStep(s, a) && u in a.uploads
    ensures InStep(RemovePrefix(s, StagingPrefix(u.0, u.1)),
                   WithUpload(a, u, a.uploads[u].(live := false, parts := map[])))
  {
    hide StagingPrefix, PartName, Contains, IsUpload, ManifestKey, PartKey;
    var b := WithUpload(a, u, a.uploads[u].(live := false, parts := map[]));
    var p := StagingPrefix(u.0, u.1);
    var t := RemovePrefix(s, p);
    forall k | k in b.blobs
      ensures k in t && t[k] == b.blobs[k]
    {
      DestinationIsNotStaged(k, u.0, u.1);
    }
    forall v, k | HoldsManifest(b, v, k)
      ensures k in t && t[k] == Json(v.0, b.uploads[v].opts)
    {
      assert HoldsManifest(a, v, k);
      if HasPrefix(k, p) {
        NotOthers(a, u, v, 0, k);
      }
    }
    forall v, n, k | HoldsPart(b, v, n, k)
      ensures k in t && t[k] == Raw(b.uploads[v].parts[n], None)
    {
      assert HoldsPart(a, v, n, k);
      if HasPrefix(k, p) {
        NotOthers(a, u, v, n, k);
      }
    }
    forall k | k in t
      ensures k in b.blobs || (exists v :: HoldsManifest(b, v, k)) || (exists v, n :: HoldsPart(b, v, n, k))
    {
      KeysHavePrefix(u, 0);
      forall v | HoldsManifest(a, v, k) ensures HoldsManifest(b, v, k) {
      }
      forall v, n | HoldsPart(a, v, n, k) ensures HoldsPart(b, v, n, k) {
        if v == u {
          KeysHavePrefix(u, n);
        }
      }
      CarryOver(s, a, b, k);
    }
  }

  /** Writing a destination key changes that blob only. */
  lemma PublishInStep(s: Store, a: State, key: string, c: Content)
    requires InStep(s, a) && !Contains(key, STAGING_INFIX)
    ensures InStep(s[key := c], a.(blobs := a.blobs[key := c]))
  {
    hide StagingPrefix, PartName, Contains, IsUpload, ManifestKey, PartKey;
    var b := a.(blobs := a.blobs[key := c]);
    var t := s[key := c];
    forall v, k | HoldsManifest(b, v, k)
      ensures k in t && t[k] == Json(v.0, b.uploads[v].opts)
    {
      assert HoldsManifest(a, v, k);
      KeysHavePrefix(v, 0);
      DestinationIsNotStaged(key, v.0, v.1);
    }
    forall v, n, k | HoldsPart(b, v, n, k)
      ensures k in t && t[k] == Raw(b.uploads[v].parts[n], None)
    {
      assert HoldsPart(a, v, n, k);
      KeysHavePrefix(v, n);
      DestinationIsNotStaged(key, v.0, v.1);
    }
    forall k | k in t
      ensures k in b.blobs || (exists v :: HoldsManifest(b, v, k)) || (exists v, n :: HoldsPart(b, v, n, k))
    {
      if k != key {
        CarryOver(s, a, b, k);
      }
    }
  }

  // ---- listing parts ----

  predicate IsStagedPart(u: UploadId, up: Upload, p: Part) {
    p.number in up.parts && p == Part(p.number, |up.parts[p.number]|, PartKey(u.0, u.1, p.number))
  }

  lemma PartOfStaged(s: Store, a: State, u: UploadId, k: string)
    requires InStep(s, a) && u in a.uploads && k in s && HasPrefix(k, StagingPrefix(u.0, u.1))
    ensures match PartOf(s, StagingPrefix(u.0, u.1), k)
            case None => forall n :: !HoldsPart(a, u, n, k)
            case Some(p) => HoldsPart(a, u, p.number, k) && IsStagedPart(u, a.uploads[u], p)
  {
    hide StagingPrefix, PartName, Contains, IsUpload, ParsePartName;
    assert IsUpload(u.0, u.1);
    OwnObjects(s, a, u, k);
    var name := k[|StagingPrefix(u.0, u.1)|..];
    if HoldsManifest(a, u, k) {
      assert name == MANIFEST_NAME;
      forall n ensures !HoldsPart(a, u, n, k) {
        ManifestIsNoPart(u.0, u.1, u.0, u.1, n);
      }
    } else {
      var n :| HoldsPart(a, u, n, k);
      PartsAreInts(a, u, n);
      assert name == PartName(n);
      PartIsNotManifest(n);
      PartNameRoundTrip(n);
    }
  }

  lemma {:induction false} PartsOfStaged(s: Store, a: State, u: UploadId, keys: seq<string>)
    requires InStep(s, a) && u in a.uploads && NoRepeats(keys)
    requires forall k :: k in keys ==> k in s && HasPrefix(k, StagingPrefix(u.0, u.1))
    ensures var ps := PartsOf(s, StagingPrefix(u.0, u.1), keys);
            && (forall p :: p in ps <==> IsStagedPart(u, a.uploads[u], p) && PartKey(u.0, u.1, p.number) in keys)
            && NumbersDiffer(ps)
    decreases |keys|
  {
    hide StagingPrefix, PartName, InStep, PartOf, PartKey;
    if keys != [] {
      var k := keys[0];
      assert k in keys && keys == [k] + keys[1..];
      assert forall i :: 0 <= i < |keys| - 1 ==> keys[i + 1] == keys[1..][i];
      assert k !in keys[1..];
      PartsOfStaged(s, a, u, keys[1..]);
      PartOfStaged(s, a, u, k);
      var rest := PartsOf(s, StagingPrefix(u.0, u.1), keys[1..]);
      var ps := PartsOf(s, StagingPrefix(u.0, u.1), keys);
      match PartOf(s, StagingPrefix(u.0, u.1), k)
      case None =>
        assert ps == [] + rest == rest;
        forall p | IsStagedPart(u, a.uploads[u], p)
          ensures PartKey(u.0, u.1, p.number) != k
        {
          assert !HoldsPart(a, u, p.number, k);
        }
      case Some(q) =>
        assert ps == [q] + rest;
        forall p | p in rest
          ensures p.number != q.number
        {
          assert IsStagedPart(u, a.uploads[u], p);
        }
        forall p | IsStagedPart(u, a.uploads[u], p) && PartKey(u.0, u.1, p.number) == k
          ensures p == q
        {
          SamePart(s, a, u, p.number, q.number);
        }
    }
  }

  lemma SamePart(s: Store, a: State, u: UploadId, m: int, n: int)
    requires InStep(s, a) && u in a.uploads && m in a.uploads[u].parts && n in a.uploads[u].parts
    requires PartKey(u.0, u.1, m) == PartKey(u.0, u.1, n)
    ensures m == n
  {
    hide PartKey, IsUpload, Contains;
    PartsAreInts(a, u, m);
    PartsAreInts(a, u, n);
    PartKeysDiffer(u.0, u.1, m, u.0, u.1, n);
  }

  /** ListParts returns precisely the stored numbers, ascending, with their sizes. */
  lemma ListPartsIsExact(s: Store, a: State, h: Handle)
    requires InStep(s, a) && (h.key, h.id) in a.uploads
    ensures ListParts(s, h).Ok?
    ensures var u := (h.key, h.id);
            var ps := ListParts(s, h).value;
            NumbersAscend(ps) && forall p :: p in ps <==> IsStagedPart(u, a.uploads[u], p)
  {
    hide InStep, StagingPrefix, PartKey, PartsOf, SortParts, NumbersAscend;
    var u := (h.key, h.id);
    StagedKeysSpec(s, Prefix(h));
    var keys := StagedKeys(s, Prefix(h));
    PartsOfStaged(s, a, u, keys);
    var ps := PartsOf(s, Prefix(h), keys);
    SortPartsSpec(ps);
    forall p | IsStagedPart(u, a.uploads[u], p)
      ensures PartKey(u.0, u.1, p.number) in keys
    {
      StagedPartStored(s, a, u, p.number);
    }
    EmptyAscends();
    if ps != [] {
      var out := SortParts(ps).value;
      forall p ensures p in out <==> p in ps {
        assert p in multiset(out) <==> p in multiset(ps);
      }
    }
  }

  lemma EmptyAscends()
    ensures NumbersAscend([])
  {
  }

  lemma StagedPartStored(s: Store, a: State, u: UploadId, n: int)
    requires InStep(s, a) && u in a.uploads && n in a.uploads[u].parts
    ensures var k := PartKey(u.0, u.1, n);
            k in s && HasPrefix(k, StagingPrefix(u.0, u.1)) && s[k] == Raw(a.uploads[u].parts[n], None)
  {
    hide StagingPrefix, PartName, PartKey, Contains, IsUpload;
    KeysHavePrefix(u, n);
    assert HoldsPart(a, u, n, PartKey(u.0, u.1, n));
  }

  // ---- committing ----

  /** The contents of the numbers up to n, in ascending order. */
  function Assembled(parts: map<int, Bytes>, n: nat): Bytes {
    if n == 0 then []
    else Assembled(parts, n - 1) + if n in parts then parts[n] else []
  }

  lemma {:induction false} NothingBetween(parts: map<int, Bytes>, m: nat, n: nat)
    requires m <= n && forall i :: m < i <= n ==> i !in parts
    ensures Assembled(parts, n) == Assembled(parts, m)
    decreases n
  {
    if m < n {
      NothingBetween(parts, m, n - 1);
    }
  }

  /** Copying parts that ascend from behind m and miss none of the stored numbers. */
  lemma {:induction false} CopyAssembles(s: Store, a: State, h: Handle, ps: seq<Part>, m: nat)
    requires InStep(s, a) && (h.key, h.id) in a.uploads && m <= MAX_PART_NUMBER
    requires NumbersAscend(ps)
    requires var up := a.uploads[(h.key, h.id)];
             && (forall i :: 0 <= i < |ps| ==> ps[i].number in up.parts && ps[i].number > m)
             && (forall n :: n in up.parts && n > m ==> exists i :: 0 <= i < |ps| && ps[i].number == n)
    ensures var up := a.uploads[(h.key, h.id)];
            var c := CopyParts(s, h, ps);
            c.missing == None && Assembled(up.parts, m) + c.bytes == Assembled(up.parts, MAX_PART_NUMBER)
    decreases |ps|
  {
    hide InStep, PartKey, StagingPrefix, Assembled, CopyParts;
    var u := (h.key, h.id);
    var up := a.uploads[u];
    if ps == [] {
      NothingBetween(up.parts, m, MAX_PART_NUMBER);
      CopyNothing(s, h);
      assert Assembled(up.parts, m) + [] == Assembled(up.parts, m);
    } else {
      var n := ps[0].number;
      StagedPartStored(s, a, u, n);
      StagedNumber(s, a, u, n);
      RestIsBehind(up.parts, ps, m);
      NothingBetween(up.parts, m, n - 1);
      AssembleOne(up.parts, n);
      CopyAssembles(s, a, h, ps[1..], n);
      CopyOne(s, h, ps);
      var rest := CopyParts(s, h, ps[1..]).bytes;
      assert Assembled(up.parts, m) + (up.parts[n] + rest) == (Assembled(up.parts, m) + up.parts[n]) + rest;
    }
  }

  lemma RestIsBehind(parts: map<int, Bytes>, ps: seq<Part>, m: nat)
    requires ps != [] && NumbersAscend(ps)
    requires forall i :: 0 <= i < |ps| ==> ps[i].number in parts && ps[i].number > m
    requires forall n :: n in parts && n > m ==> exists i :: 0 <= i < |ps| && ps[i].number == n
    ensures forall q :: q in parts && q > m ==> q >= ps[0].number
    ensures NumbersAscend(ps[1..])
    ensures forall i :: 0 <= i < |ps| - 1 ==> ps[1..][i].number in parts && ps[1..][i].number > ps[0].number
    ensures forall q :: q in parts && q > ps[0].number ==> exists i :: 0 <= i < |ps| - 1 && ps[1..][i].number == q
  {
    forall q | q in parts && q > m
      ensures q >= ps[0].number
      ensures q > ps[0].number ==> exists i :: 0 <= i < |ps| - 1 && ps[1..][i].number == q
    {
      var j :| 0 <= j < |ps| && ps[j].number == q;
      assert j > 0 ==> ps[0].number < ps[j].number && ps[1..][j - 1].number == q;
    }
  }

  lemma CopyNothing(s: Store, h: Handle)
    ensures CopyParts(s, h, []) == Copied([], None)
  {
  }

  lemma CopyOne(s: Store, h: Handle, ps: seq<Part>)
    requires ps != [] && PartKey(h.key, h.id, ps[0].number) in s
    ensures var rest := CopyParts(s, h, ps[1..]);
            CopyParts(s, h, ps) == Copied(BytesOf(s[PartKey(h.key, h.id, ps[0].number)]) + rest.bytes, rest.missing)
  {
    hide PartKey;
  }

  lemma AssembleOne(parts: map<int, Bytes>, n: nat)
    requires n in parts && n >= 1
    ensures Assembled(parts, n) == Assembled(parts, n - 1) + parts[n]
  {
  }

  lemma StagedNumber(s: Store, a: State, u: UploadId, n: int)
    requires InStep(s, a) && u in a.uploads && n in a.uploads[u].parts
    ensures 1 <= n <= MAX_PART_NUMBER
  {
    PartsAreInts(a, u, n);
  }

  lemma {:induction false} OwnTags(h: Handle, ps: seq<Part>)
    requires forall p :: p in ps ==> p.tag == "" || p.tag == PartKey(h.key, h.id, p.number)
    ensures FirstForeign(h, ps).None?
    decreases |ps|
  {
    hide PartKey;
    if ps != [] {
      assert ps[0] in ps && ps == [ps[0]] + ps[1..];
      OwnTags(h, ps[1..]);
    }
  }

  /** What ListParts lists may be committed, in any order, and is copied in ascending
      number. */
  lemma ReadyToCommit(s: Store, a: State, h: Handle, parts: seq<Part>)
    requires InStep(s, a) && (h.key, h.id) in a.uploads && !h.finished
    requires ListParts(s, h).Ok? && ListParts(s, h).value != []
    requires multiset(parts) == multiset(ListParts(s, h).value)
    ensures PassesChecks(h, parts)
    ensures var up, ordered := a.uploads[(h.key, h.id)], SortParts(parts).value;
            && CopyParts(s, h, ordered) == Copied(Assembled(up.parts, MAX_PART_NUMBER), None)
            && forall i :: 0 <= i < |ordered| ==> ordered[i].number in up.parts
  {
    hide InStep, PartKey, StagingPrefix, SortParts, ListParts, NumbersAscend, NumbersDiffer, CopyParts, FirstForeign,
         Assembled, IsStagedPart;
    var u := (h.key, h.id);
    var up := a.uploads[u];
    var listed := ListParts(s, h).value;
    ListPartsIsExact(s, a, h);
    AscendDiffers(listed, listed);
    SortPartsPermutation(listed, parts);
    SortPartsSpec(listed);
    var ordered := SortParts(parts).value;
    forall p ensures p in ordered <==> IsStagedPart(u, up, p) {
      assert p in multiset(ordered) <==> p in multiset(listed);
    }
    StagedTags(h, up, ordered);
    StagedNumbers(s, a, u, ordered);
    CopyAssembles(s, a, h, ordered, 0);
    assert Assembled(up.parts, 0) == [] by { NothingAssembled(up.parts); }
    var c := CopyParts(s, h, ordered);
    assert [] + c.bytes == c.bytes;
  }

  /** Commit of all staged parts, given in any order: the destination becomes the
      concatenation, in ascending number, of the last content stored per number,
      with the upload's options; nothing staged remains; every other object is as
      it was. */
  lemma CommitAssembles(s: Store, a: State, h: Handle, parts: seq<Part>)
    requires InStep(s, a) && (h.key, h.id) in a.uploads && !h.finished
    requires ListParts(s, h).Ok? && ListParts(s, h).value != []
    requires multiset(parts) == multiset(ListParts(s, h).value)
    ensures var up := a.uploads[(h.key, h.id)];
            var o := Commit(s, h, parts);
            && o.result == Ok(())
            && Final(s, o.trace)
               == RemovePrefix(s[h.key := Raw(Assembled(up.parts, MAX_PART_NUMBER), h.opts)], Prefix(h))
  {
    hide InStep, StagingPrefix, SortParts, ListParts, CopyParts, FirstForeign, DeleteStaged, Assembled;
    ReadyToCommit(s, a, h, parts);
    CommitSucceeds(s, h, parts);
    DeleteStagedFinal(s[h.key := Raw(Assembled(a.uploads[(h.key, h.id)].parts, MAX_PART_NUMBER), h.opts)], h);
  }

  lemma NothingAssembled(parts: map<int, Bytes>)
    ensures Assembled(parts, 0) == []
  {
  }

  lemma CommitSucceeds(s: Store, h: Handle, parts: seq<Part>)
    requires PassesChecks(h, parts) && CopyParts(s, h, SortParts(parts).value).missing == None
    ensures var t := s[h.key := Raw(CopyParts(s, h, SortParts(parts).value).bytes, h.opts)];
            Commit(s, h, parts).result == Ok(()) && Final(s, Commit(s, h, parts).trace) == Final(t, DeleteStaged(t, h))
  {
    hide SortParts, FirstForeign, CopyParts, Deletions;
  }

  lemma StagedTags(h: Handle, up: Upload, ps: seq<Part>)
    requires forall p :: p in ps ==> IsStagedPart((h.key, h.id), up, p)
    ensures FirstForeign(h, ps).None?
  {
    hide PartKey;
    OwnTags(h, ps);
  }

  lemma StagedNumbers(s: Store, a: State, u: UploadId, ps: seq<Part>)
    requires InStep(s, a) && u in a.uploads
    requires forall p :: p in ps <==> IsStagedPart(u, a.uploads[u], p)
    ensures forall i :: 0 <= i < |ps| ==> ps[i].number in a.uploads[u].parts && ps[i].number > 0
    ensures forall n :: n in a.uploads[u].parts ==> exists i :: 0 <= i < |ps| && ps[i].number == n
  {
    hide PartKey, InStep;
    var up := a.uploads[u];
    forall i | 0 <= i < |ps|
      ensures ps[i].number in up.parts && ps[i].number > 0
    {
      assert ps[i] in ps;
      StagedNumber(s, a, u, ps[i].number);
    }
    forall n | n in up.parts
      ensures exists i :: 0 <= i < |ps| && ps[i].number == n
    {
      var p := Part(n, |up.parts[n]|, PartKey(u.0, u.1, n));
      assert IsStagedPart(u, up, p);
      assert p in ps;
    }
  }
}
