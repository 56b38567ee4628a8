/** The uploader as an object over a bucket (bucket.go): its loops over parts and
    staged objects, each store operation at a time. */
module Uploader {
  import opened Strings
  import opened Staging
  import opened Parts
  import opened Multipart

  /** A bucket that other processes may hold too.  The log has every state that it
      has been in since it was made. */
  class Bucket {
    var objects: Store
    ghost var log: seq<Store>

    constructor ()
      ensures objects == map[] && log == []
    {
      objects, log := map[], [];
    }

    /** WriteAll, or Close of a writer: what publishes an object. */
    method Put(key: string, c: Content)
      modifies this
      ensures objects == old(objects)[key := c] && log == old(log) + [objects]
    {
      objects := objects[key := c];
      log := log + [objects];
    }

    /** Delete; that there is no such object does not matter to the callers. */
    method Delete(key: string)
      modifies this
      ensures objects == old(objects) - {key} && log == old(log) + [objects]
    {
      objects := objects - {key};
      log := log + [objects];
    }

    method List(prefix: string) returns (keys: seq<string>)
      ensures keys == StagedKeys(objects, prefix)
    {
      keys := StagedKeys(objects, prefix);
    }
  }

  class BucketUploader {
    const b: Bucket
    const key: string
    const uploadID: string
    const opts: Option<Options>
    var finished: bool

    constructor (b: Bucket, key: string, uploadID: string, opts: Option<Options>)
      ensures this.b == b && Self() == Handle(key, uploadID, opts, false)
    {
      this.b, this.key, this.uploadID, this.opts, finished := b, key, uploadID, opts, false;
    }

    function Self(): Handle
      reads this
    {
      Handle(key, uploadID, opts, finished)
    }

    /** The bucket went through the states of a trace. */
    twostate predicate WentThrough(trace: seq<Store>)
      reads b
    {
      b.log == old(b.log) + trace && b.objects == Final(old(b.objects), trace)
    }

    method UploadPart(number: int, r: Reader) returns (result: Result<Part>)
      modifies b
      ensures result == Multipart.UploadPart(old(b.objects), Self(), number, r).result
      ensures WentThrough(Multipart.UploadPart(old(b.objects), Self(), number, r).trace)
    {
      hide PartKey;
      if finished {
        return Err(Closed);
      }
      var e := ValidatePartNumber(number, CONSTRAINTS);
      if e.Some? {
        return Err(e.value);
      }
      var k := PartKey(key, uploadID, number);
      b.Put(k, Raw(r.bytes, None));
      if r.fails {
        b.Delete(k);
        return Err(ReadFailed);
      }
      return Ok(Part(number, |r.bytes|, k));
    }

    method ListParts() returns (result: Result<seq<Part>>)
      ensures result == Multipart.ListParts(b.objects, Self())
    {
      hide StagingPrefix, SortParts, PartOf, StagedKeys, PartsOf;
      var prefix := StagingPrefix(key, uploadID);
      var keys := b.List(prefix);
      StagedKeysSpec(b.objects, prefix);
      var parts: seq<Part> := [];
      for i := 0 to |keys|
        invariant PartsOf(b.objects, prefix, keys) == parts + PartsOf(b.objects, prefix, keys[i..])
      {
        assert keys[i] in keys && keys[i..][0] == keys[i] && keys[i..][1..] == keys[i + 1..];
        var p := PartOf(b.objects, prefix, keys[i]);
        PartsOfStep(b.objects, prefix, keys[i..]);
        if p.Some? {
          assert parts + ([p.value] + PartsOf(b.objects, prefix, keys[i + 1..]))
              == (parts + [p.value]) + PartsOf(b.objects, prefix, keys[i + 1..]);
          parts := parts + [p.value];
        }
      }
      assert keys[|keys|..] == [] && parts + [] == parts;
      PartsOfNone(b.objects, prefix);
      if |parts| == 0 {
        return Ok([]);
      }
      result := SortPartsLoop(parts);
    }

    method Commit(parts: seq<Part>) returns (result: Result<()>)
      modifies b, this
      ensures result == Multipart.Commit(old(b.objects), old(Self()), parts).result
      ensures WentThrough(Multipart.Commit(old(b.objects), old(Self()), parts).trace)
      ensures Self() == old(Self()).(finished := old(finished) || result.Ok?)
    {
      hide SortParts, Multipart.DeleteStaged, CopyParts, FirstForeign, PartKey;
      if finished {
        return Err(Closed);
      }
      var sorted := SortPartsLoop(parts);
      if sorted.Err? {
        return Err(sorted.error);
      }
      var ordered := sorted.value;
      var tooSmall := CheckPartSizes(ordered, CONSTRAINTS);
      if tooSmall.Some? {
        assert false;  // this backend has no minimum size
      }
      var foreign := ForeignTag(ordered);
      if foreign.Some? {
        return Err(ForeignPart(foreign.value));
      }
      var written, missing := CopyAll(ordered);
      b.Put(key, Raw(written, opts));
      if missing.Some? {
        return Err(MissingPart(missing.value));
      }
      finished := true;
      DeleteStaged();
      return Ok(());
    }

    /** The tags of parts, which may have come from other processes. */
    method ForeignTag(ps: seq<Part>) returns (number: Option<int>)
      ensures number == FirstForeign(Self(), ps)
    {
      hide PartKey;
      for i := 0 to |ps|
        invariant FirstForeign(Self(), ps) == FirstForeign(Self(), ps[i..])
      {
        assert ps[i..][0] == ps[i] && ps[i..][1..] == ps[i + 1..];
        if ps[i].tag != "" && ps[i].tag != PartKey(key, uploadID, ps[i].number) {
          return Some(ps[i].number);
        }
      }
      return None;
    }

    /** The copy loop, up to the first part that is missing. */
    method CopyAll(ps: seq<Part>) returns (written: Bytes, missing: Option<int>)
      ensures Copied(written, missing) == CopyParts(b.objects, Self(), ps)
    {
      hide PartKey;
      written, missing := [], None;
      for i := 0 to |ps|
        invariant CopyParts(b.objects, Self(), ps).bytes == written + CopyParts(b.objects, Self(), ps[i..]).bytes
        invariant CopyParts(b.objects, Self(), ps).missing == CopyParts(b.objects, Self(), ps[i..]).missing
      {
        assert ps[i..][0] == ps[i] && ps[i..][1..] == ps[i + 1..];
        var k := PartKey(key, uploadID, ps[i].number);
        if k !in b.objects {
          assert written + [] == written;
          return written, Some(ps[i].number);
        }
        written := written + BytesOf(b.objects[k]);
      }
    }

    method Abort() returns (result: Result<()>)
      modifies b, this
      ensures result == Multipart.Abort(old(b.objects), old(Self())).result
      ensures WentThrough(Multipart.Abort(old(b.objects), old(Self())).trace)
      ensures Self() == old(Self()).(finished := true)
    {
      if finished {
        return Ok(());
      }
      finished := true;
      DeleteStaged();
      return Ok(());
    }

    /** Deletes what is staged, the manifest last; no state between the first and the
        last deletion has parts without a manifest. */
    method DeleteStaged()
      modifies b
      ensures WentThrough(Multipart.DeleteStaged(old(b.objects), Self().(finished := false)))
      ensures b.objects == RemovePrefix(old(b.objects), StagingPrefix(key, uploadID))
    {
      hide StagedKeys, StagingPrefix, ManifestKey;
      ghost var h := Self().(finished := false);
      DeleteStagedFinal(b.objects, h);
      var manifestKey := ManifestKey(key, uploadID);
      var keys := b.List(StagingPrefix(key, uploadID));
      ghost var start, ds := b.objects, Deletions(b.objects, Without(keys, manifestKey));
      ghost var done: seq<Store> := [];
      for i := 0 to |keys|
        invariant b.log == old(b.log) + done && b.objects == Final(start, done)
        invariant ds == done + Deletions(b.objects, Without(keys[i..], manifestKey))
      {
        assert keys[i..][0] == keys[i] && keys[i..][1..] == keys[i + 1..];
        if keys[i] == manifestKey {
          assert Without(keys[i..], manifestKey) == Without(keys[i + 1..], manifestKey);
          continue;
        }
        assert Without(keys[i..], manifestKey) == [keys[i]] + Without(keys[i + 1..], manifestKey);
        b.Delete(keys[i]);
        done := done + [b.objects];
      }
      assert ds == done;
      b.Delete(manifestKey);
    }
  }

  lemma PartsOfStep(s: Store, prefix: string, keys: seq<string>)
    requires keys != [] && forall k :: k in keys ==> k in s && HasPrefix(k, prefix)
    ensures PartsOf(s, prefix, keys)
         == match PartOf(s, prefix, keys[0])
            case None => PartsOf(s, prefix, keys[1..])
            case Some(p) => [p] + PartsOf(s, prefix, keys[1..])
  {
    hide PartOf;
    assert [] + PartsOf(s, prefix, keys[1..]) == PartsOf(s, prefix, keys[1..]);
  }

  lemma PartsOfNone(s: Store, prefix: string)
    ensures PartsOf(s, prefix, []) == []
  {
  }

  method NewUploader(b: Bucket, key: string, id: string, opts: Option<Options>)
      returns (u: BucketUploader?, error: Option<Error>)
    modifies b
    ensures var o := NewUpload(old(b.objects), key, id, opts);
            && b.log == old(b.log) + o.trace && b.objects == Final(old(b.objects), o.trace)
            && (u == null <==> o.result.Err?)
            && (u != null ==> fresh(u) && u.b == b && u.Self() == o.result.value)
            && (u == null ==> error == Some(o.result.error))
  {
    hide Contains, ManifestKey;
    if key == "" {
      return null, Some(EmptyKey);
    }
    if Contains(key, STAGING_INFIX) {
      return null, Some(ReservedInfix);
    }
    u := new BucketUploader(b, key, id, opts);
    b.Put(ManifestKey(key, id), Json(key, opts));
    error := None;
  }

  method Open(b: Bucket, key: string, id: string) returns (u: BucketUploader?, error: Option<Error>)
    ensures var r := OpenUpload(b.objects, key, id);
            && (u == null <==> r.Err?)
            && (u != null ==> fresh(u) && u.b == b && u.Self() == r.value)
            && (u == null ==> error == Some(r.error))
  {
    hide ManifestKey;
    if key == "" || id == "" || ManifestKey(key, id) !in b.objects {
      return null, Some(UploadNotFound);
    }
    match b.objects[ManifestKey(key, id)] {
      case Raw(_, _) =>
        return null, Some(UnreadableManifest);
      case Json(k, opts) =>
        if k != key {
          return null, Some(UploadNotFound);
        }
        u := new BucketUploader(b, key, id, opts);
        error := None;
    }
  }
}
