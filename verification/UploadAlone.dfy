/** A call by itself, all of whose operations go well, does what the functions of
    Multipart say, and so what the methods of Uploader do
    (blob/multipart/bucket.go:198-368). */
module UploadAlone {
  import opened Strings
  import opened Staging
  import opened Parts
  import opened Multipart
  import opened UploadSteps

  /** k steps of one call. */
  function Alone(y: System, c: nat, k: nat): System
    decreases k
  {
    if k == 0 then y else Alone(Step(y, Go(c, true, 0)), c, k - 1)
  }

  /** The system with one call elsewhere. */
  function Moved(y: System, c: nat, s: Multipart.Store, handles: seq<Handle>, pc: Pc): System
    requires c < |y.calls|
  {
    System(s, handles, y.calls[c := y.calls[c].(pc := pc)])
  }

  lemma {:induction false} AloneAdds(y: System, c: nat, j: nat, k: nat)
    ensures Alone(Alone(y, c, j), c, k) == Alone(y, c, j + k)
    decreases j
  {
    hide Step;
    if j > 0 {
      AloneAdds(Step(y, Go(c, true, 0)), c, j - 1, k);
    }
  }

  lemma {:induction false} DeletesAlone(y: System, c: nat) returns (k: nat)
    requires c < |y.calls| && y.calls[c].pc.Deleting?
    ensures var p := y.calls[c];
            Alone(y, c, k) == Moved(y, c, Final(y.store, Deletions(y.store, p.pc.keys)) - {ManifestKey(p.u.0, p.u.1)},
                                    y.handles, Returned(true))
    decreases |y.calls[c].pc.keys|
  {
    hide ManifestKey;
    var p := y.calls[c];
    var y1 := Step(y, Go(c, true, 0));
    if p.pc.keys == [] {
      k := 1;
      assert Alone(y, c, 1) == Alone(y1, c, 0);
    } else {
      var m := DeletesAlone(y1, c);
      k := m + 1;
      var s1 := y.store - {p.pc.keys[0]};
      assert Final(y.store, Deletions(y.store, p.pc.keys)) == Final(s1, Deletions(s1, p.pc.keys[1..]));
    }
  }

  lemma ListsAlone(y: System, c: nat, h: Handle) returns (k: nat)
    requires c < |y.calls| && y.calls[c].pc.Listing? && y.calls[c].u == IdOf(h)
    ensures Alone(y, c, k) == Moved(y, c, Final(y.store, DeleteStaged(y.store, h)), y.handles, Returned(true))
  {
    hide ManifestKey, StagedKeys, StagingPrefix, Deletions, Without;
    var y1 := Step(y, Go(c, true, 0));
    assert y1 == Moved(y, c, y.store, y.handles, Deleting(StagedParts(y.store, IdOf(h))));
    var m := DeletesAlone(y1, c);
    k := m + 1;
  }

  lemma {:induction false} CopiesAlone(y: System, c: nat, h: Handle) returns (k: nat)
    requires c < |y.calls| && y.calls[c].pc.Copying? && y.calls[c].pc.rest != [] && y.calls[c].u == IdOf(h)
    ensures var p := y.calls[c];
            var copied := CopyParts(y.store, h, p.pc.rest);
            Alone(y, c, k) == Moved(y, c, y.store, y.handles, Publishing(p.pc.bytes + copied.bytes, copied.missing.None?))
    decreases |y.calls[c].pc.rest|
  {
    hide PartKey;
    var p := y.calls[c];
    var rest, bytes := p.pc.rest, p.pc.bytes;
    var key := PartKey(p.u.0, p.u.1, rest[0].number);
    var y1 := Step(y, Go(c, true, 0));
    if key !in y.store {
      k := 1;
      assert bytes + [] == bytes;
      assert Alone(y, c, 1) == Alone(y1, c, 0);
    } else {
      var first, more := BytesOf(y.store[key]), CopyParts(y.store, h, rest[1..]);
      assert bytes + (first + more.bytes) == (bytes + first) + more.bytes;
      if |rest| == 1 {
        k := 1;
        assert rest[1..] == [] && (bytes + first) + [] == bytes + first;
        assert Alone(y, c, 1) == Alone(y1, c, 0);
      } else {
        var m := CopiesAlone(y1, c, h);
        k := m + 1;
      }
    }
  }

  /** NewUploader. */
  lemma NewAlone(y: System, key: string, id: string, opts: Option<Options>) returns (k: nat)
    ensures var o, c := NewUpload(y.store, key, id, opts), |y.calls|;
            var t := Alone(Step(y, Begin(New(key, id, opts))), c, k);
            && |t.calls| == c + 1 && t.store == Final(y.store, o.trace) && t.calls[c].pc == Returned(o.result.Ok?)
            && t.handles == y.handles + (if o.result.Ok? then [o.result.value] else [])
  {
    hide ManifestKey, Contains;
    var c := |y.calls|;
    var y1 := Step(y, Begin(New(key, id, opts)));
    var y2 := Step(y1, Go(c, true, 0));
    k := |NewUpload(y.store, key, id, opts).trace|;
    assert Alone(y1, c, 0) == y1 && Alone(y1, c, 1) == Alone(y2, c, 0) == y2;
    assert y.handles + [] == y.handles;
  }

  /** Open. */
  lemma OpenAlone(y: System, key: string, id: string) returns (k: nat)
    ensures var r, c := OpenUpload(y.store, key, id), |y.calls|;
            var t := Alone(Step(y, Begin(UploadSteps.Open(key, id))), c, k);
            && |t.calls| == c + 1 && t.store == y.store && t.calls[c].pc == Returned(r.Ok?)
            && t.handles == y.handles + (if r.Ok? then [r.value] else [])
  {
    hide ManifestKey;
    var c := |y.calls|;
    var y1 := Step(y, Begin(UploadSteps.Open(key, id)));
    var y2 := Step(y1, Go(c, true, 0));
    k := if key == "" || id == "" then 0 else 1;
    assert Alone(y1, c, 0) == y1 && Alone(y1, c, 1) == Alone(y2, c, 0) == y2;
    assert y.handles + [] == y.handles;
  }

  /** A Store call begins to write its part, in the midst of any others, on every unfinished
      handle and for every number from 1 to 10000; else it returns an error. */
  lemma StoreBegins(y: System, i: nat, number: int, r: Reader)
    ensures var p := Step(y, Begin(Store(i, number, r))).calls[|y.calls|];
            p.pc == (if i < |y.handles| && !y.handles[i].finished && 1 <= number <= 10000 then Putting(number, r)
                     else Returned(false))
    ensures i < |y.handles| ==> Step(y, Begin(Store(i, number, r))).calls[|y.calls|].u == (y.handles[i].key, y.handles[i].id)
  {
  }

  /** UploadPart. */
  lemma UploadPartAlone(y: System, i: nat, number: int, r: Reader) returns (k: nat)
    requires i < |y.handles|
    ensures var o, c := Multipart.UploadPart(y.store, y.handles[i], number, r), |y.calls|;
            var t := Alone(Step(y, Begin(Store(i, number, r))), c, k);
            && |t.calls| == c + 1 && t.store == Final(y.store, o.trace) && t.handles == y.handles
            && t.calls[c].pc == Returned(o.result.Ok?)
  {
    hide PartKey;
    var c := |y.calls|;
    var y1 := Step(y, Begin(Store(i, number, r)));
    var y2 := Step(y1, Go(c, true, 0));
    var y3 := Step(y2, Go(c, true, 0));
    k := |Multipart.UploadPart(y.store, y.handles[i], number, r).trace|;
    assert Alone(y1, c, 0) == y1 && Alone(y1, c, 1) == Alone(y2, c, 0) == y2;
    assert Alone(y1, c, 2) == Alone(y2, c, 1) == Alone(y3, c, 0) == y3;
  }

  /** Abort. */
  lemma AbortAlone(y: System, i: nat) returns (k: nat)
    requires i < |y.handles|
    ensures var o, c := Abort(y.store, y.handles[i]), |y.calls|;
            var t := Alone(Step(y, Begin(AbortUpload(i))), c, k);
            && |t.calls| == c + 1 && t.store == Final(y.store, o.trace) && t.handles == Finished(y.handles, i)
            && t.calls[c].pc == Returned(o.result.Ok?)
  {
    hide DeleteStaged;
    var c, h := |y.calls|, y.handles[i];
    var y1 := Step(y, Begin(AbortUpload(i)));
    if h.finished {
      k := 0;
    } else {
      k := ListsAlone(y1, c, h);
    }
  }

  /** Commit: the copying, the publishing and the cleaning up. */
  lemma CommitAlone(y: System, i: nat, parts: seq<Part>) returns (k: nat)
    requires i < |y.handles|
    ensures var o, c := Commit(y.store, y.handles[i], parts), |y.calls|;
            var t := Alone(Step(y, Begin(CommitParts(i, parts))), c, k);
            && |t.calls| == c + 1 && t.store == Final(y.store, o.trace)
            && t.handles == (if o.result.Ok? then Finished(y.handles, i) else y.handles)
            && t.calls[c].pc == Returned(o.result.Ok?)
  {
    hide DeleteStaged, CopyParts, SortParts, FirstForeign, Alone;
    var c, h := |y.calls|, y.handles[i];
    var y1 := Step(y, Begin(CommitParts(i, parts)));
    if !PassesChecks(h, parts) {
      k := 0;
      NoSteps(y1, c);
    } else {
      SortPartsSpec(parts);
      SameSizes(SortParts(parts).value, parts);
      var k1 := CopiesAlone(y1, c, h);
      var y2 := Alone(y1, c, k1);
      var copied := CopyParts(y.store, h, SortParts(parts).value);
      assert [] + copied.bytes == copied.bytes;
      var y3 := Step(y2, Go(c, true, 0));
      OneMore(y1, c, k1);
      if copied.missing.Some? {
        k := k1 + 1;
      } else {
        var k2 := ListsAlone(y3, c, h);
        AloneAdds(y1, c, k1 + 1, k2);
        k := k1 + 1 + k2;
      }
    }
  }

  lemma NoSteps(y: System, c: nat)
    ensures Alone(y, c, 0) == y
  {
  }

  lemma OneMore(y: System, c: nat, k: nat)
    ensures Alone(y, c, k + 1) == Step(Alone(y, c, k), Go(c, true, 0))
  {
    AloneAdds(y, c, k, 1);
    NoSteps(Step(Alone(y, c, k), Go(c, true, 0)), c);
  }

  // ---- and what an operation leaves that fails ----

  /** A part that cannot be written is removed, and the call returns an error. */
  lemma FailedPut(y: System, c: nat, n: nat, m: nat)
    requires c < |y.calls| && y.calls[c].pc.Putting?
    ensures var p := y.calls[c];
            Step(Step(y, Go(c, false, n)), Go(c, true, m))
            == Moved(y, c, y.store - {PartKey(p.u.0, p.u.1, p.pc.number)}, y.handles, Returned(false))
  {
    hide PartKey;
  }

  /** A part that cannot be read to its end ends the copying, and what has been read of it
      is published with the rest, though the call returns an error. */
  lemma FailedCopy(y: System, c: nat, n: nat, m: nat)
    requires c < |y.calls| && y.calls[c].pc.Copying? && y.calls[c].pc.rest != []
    requires PartKey(y.calls[c].u.0, y.calls[c].u.1, y.calls[c].pc.rest[0].number) in y.store
    requires n <= |BytesOf(y.store[PartKey(y.calls[c].u.0, y.calls[c].u.1, y.calls[c].pc.rest[0].number)])|
    ensures var p := y.calls[c];
            var read := BytesOf(y.store[PartKey(p.u.0, p.u.1, p.pc.rest[0].number)])[..n];
            Step(Step(y, Go(c, false, n)), Go(c, true, m))
            == Moved(y, c, y.store[p.u.0 := Raw(p.pc.bytes + read, p.opts)], y.handles, Returned(false))
  {
    hide PartKey;
  }

  /** A destination that cannot be closed leaves all as it was, the handle too. */
  lemma FailedPublish(y: System, c: nat, n: nat)
    requires c < |y.calls| && y.calls[c].pc.Publishing?
    ensures Step(y, Go(c, false, n)) == Moved(y, c, y.store, y.handles, Returned(false))
  {
  }

  /** A manifest that cannot be written, or read, leaves all as it was, and gives no
      handle. */
  lemma FailedManifest(y: System, c: nat, n: nat)
    requires c < |y.calls| && (y.calls[c].pc.Creating? || y.calls[c].pc.Opening?)
    ensures Step(y, Go(c, false, n)) == Moved(y, c, y.store, y.handles, Returned(false))
  {
  }

  /** A listing that fails after n keys is taken for the whole, and a deletion that fails
      is passed over. */
  lemma FailedCleaning(y: System, c: nat, n: nat)
    requires c < |y.calls| && (y.calls[c].pc.Listing? || y.calls[c].pc.Deleting?)
    ensures var p := y.calls[c];
            var keys := StagedParts(y.store, p.u);
            Step(y, Go(c, false, n))
            == Moved(y, c, y.store, y.handles,
                     if p.pc.Listing? then Deleting(if n <= |keys| then keys[..n] else keys)
                     else if p.pc.keys == [] then Returned(true) else Deleting(p.pc.keys[1..]))
  {
    hide StagedParts;
  }
}
