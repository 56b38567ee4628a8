/** Does a part that remains always have its manifest, so that Open can still find the
    upload?  Over runs in which calls interleave, stop and fail at any store operation
    (blob/multipart/bucket.go:106-116, 333-368). */
module UploadCovers {
  import opened Strings
  import opened PartNames
  import opened Staging
  import opened Parts
  import opened Multipart
  import opened Uploads
  import opened UploadSteps

  /** Where an upload has a part, it has its manifest. */
  ghost predicate PartsHaveManifests(s: Multipart.Store) {
    forall key, id, n :: IsUpload(key, id) && 1 <= n <= MAX_PART_NUMBER && PartKey(key, id, n) in s
      ==> ManifestKey(key, id) in s
  }

  predicate PartsCovered(a: State) {
    forall u, n :: u in a.uploads && n in a.uploads[u].parts ==> a.uploads[u].live
  }

  lemma CoveredMeans(s: Multipart.Store, a: State)
    requires InStep(s, a)
    ensures PartsHaveManifests(s) <==> PartsCovered(a)
  {
    hide StagingPrefix, PartName, Contains, IsUpload, ManifestKey, PartKey, InStep;
    if PartsCovered(a) {
      forall key, id, n | IsUpload(key, id) && 1 <= n <= MAX_PART_NUMBER && PartKey(key, id, n) in s
        ensures ManifestKey(key, id) in s
      {
        PartIsKnown(s, a, (key, id), n);
        ManifestIff(s, a, (key, id));
      }
    }
    if PartsHaveManifests(s) {
      forall u, n | u in a.uploads && n in a.uploads[u].parts
        ensures a.uploads[u].live
      {
        ManifestIff(s, a, u);
        PartIsThere(s, a, u, n);
      }
    }
  }

  lemma PartIsThere(s: Multipart.Store, a: State, u: UploadId, n: int)
    requires InStep(s, a) && u in a.uploads && n in a.uploads[u].parts
    ensures PartKey(u.0, u.1, n) in s && IsUpload(u.0, u.1) && 1 <= n <= MAX_PART_NUMBER
  {
    hide PartKey, Contains, StagingPrefix;
    StagedPartStored(s, a, u, n);
    PartsAreInts(a, u, n);
  }

  lemma PartIsKnown(s: Multipart.Store, a: State, u: UploadId, n: int)
    requires InStep(s, a) && IsUpload(u.0, u.1) && 1 <= n <= MAX_PART_NUMBER && PartKey(u.0, u.1, n) in s
    ensures u in a.uploads && n in a.uploads[u].parts
  {
    hide StagingPrefix, PartName, Contains, IsUpload, ManifestKey, PartKey;
    KeysHavePrefix(u, n);
    OwnObjects(s, a, u, PartKey(u.0, u.1, n));
    ManifestIsNoPart(u.0, u.1, u.0, u.1, n);
    var m :| HoldsPart(a, u, m, PartKey(u.0, u.1, n));
    PartsAreInts(a, u, m);
    PartKeysDiffer(u.0, u.1, m, u.0, u.1, n);
  }

  /** The manifest of a known upload is there exactly while it is live. */
  lemma ManifestIff(s: Multipart.Store, a: State, u: UploadId)
    requires InStep(s, a) && u in a.uploads
    ensures ManifestKey(u.0, u.1) in s <==> a.uploads[u].live
  {
    hide StagingPrefix, PartName, Contains, IsUpload, ManifestKey, PartKey;
    var k := ManifestKey(u.0, u.1);
    assert IsUpload(u.0, u.1);
    if a.uploads[u].live {
      assert HoldsManifest(a, u, k);
    }
    if k in s {
      KeysHavePrefix(u, 0);
      OwnObjects(s, a, u, k);
      if exists n :: HoldsPart(a, u, n, k) {
        var n :| HoldsPart(a, u, n, k);
        ManifestIsNoPart(u.0, u.1, u.0, u.1, n);
      }
    }
  }

  // ---- the two ways to lose a manifest ----

  /** The manifest is deleted while a part is there, or a part is written where there is
      no manifest. */
  predicate Orphans(a: State, op: StoreOp) {
    || (op.DropManifest? && op.u in a.uploads && exists n :: n in a.uploads[op.u].parts)
    || (op.PutPart? && op.u in a.uploads && !a.uploads[op.u].live)
  }

  lemma OrphansIff(a: State, op: StoreOp)
    requires PartsCovered(a) && Allowed(a, op)
    ensures PartsCovered(Interpreted(a, op)) <==> !Orphans(a, op)
  {
    hide IsPartKey, IsUpload, Contains, PartKey;
    var b := Interpreted(a, op);
    if op.PutPart? && Orphans(a, op) {
      assert op.number in b.uploads[op.u].parts;
    }
    if op.DropManifest? && Orphans(a, op) {
      var n :| n in a.uploads[op.u].parts;
      assert n in b.uploads[op.u].parts && !b.uploads[op.u].live;
    }
  }

  /** At every moment of a run a part that remains has its manifest. */
  ghost predicate AlwaysCovered(es: seq<Event>) {
    forall i :: 0 <= i <= |es| ==> PartsHaveManifests(Run(es[..i]).system.store)
  }

  predicate NoOrphans(es: seq<Event>) {
    forall i :: 0 <= i < |es| ==> !Orphans(Run(es[..i]).meaning, OpAt(es, i))
  }

  lemma OneStep(es: seq<Event>, i: nat)
    requires FreshIds(es) && i < |es|
    ensures FreshIds(es[..i]) && FreshIds(es[..i + 1])
    ensures Run(es[..i + 1]).meaning == Interpreted(Run(es[..i]).meaning, OpAt(es, i))
    ensures Allowed(Run(es[..i]).meaning, OpAt(es, i))
  {
    hide InStep, FreshId, Step, Interpreted, Allowed, EventOp;
    FreshIdsUpTo(es, i);
    FreshIdsUpTo(es, i + 1);
    assert es[..i + 1][..i] == es[..i];
    RunSound(es[..i]);
    var b := Run(es[..i]);
    assert FreshId(b.meaning, OpAt(es, i));
    EventAllowed(b.system, b.meaning, es[i]);
  }

  lemma EventAllowed(y: System, a: State, e: Event)
    requires Sound(y, a) && FreshId(a, EventOp(y, e))
    ensures Allowed(a, EventOp(y, e))
  {
    hide InStep, FreshId, OpOf, CallOk, Allowed;
    if e.Go? && e.call < |y.calls| {
      OpAllowed(y.store, a, y.calls[e.call], e.ok);
    } else {
      NothingAllowed(a);
    }
  }

  lemma NothingAllowed(a: State)
    ensures Allowed(a, Nothing)
  {
  }

  lemma FreshIdsUpTo(es: seq<Event>, i: nat)
    requires FreshIds(es) && i <= |es|
    ensures FreshIds(es[..i])
  {
    hide FreshId, Run, EventOp;
    forall j | 0 <= j < i
      ensures FreshId(Run(es[..i][..j]).meaning, OpAt(es[..i], j))
    {
      assert es[..i][..j] == es[..j];
    }
  }

  lemma {:induction false} CoveredUpTo(es: seq<Event>, i: nat)
    requires FreshIds(es) && i <= |es|
    requires forall j :: 0 <= j < i ==> !Orphans(Run(es[..j]).meaning, OpAt(es, j))
    ensures PartsCovered(Run(es[..i]).meaning)
  {
    if i == 0 {
      assert es[..0] == [];
    } else {
      hide Orphans, PartsCovered, Run, OpAt, Interpreted, Allowed;
      CoveredUpTo(es, i - 1);
      OneStep(es, i - 1);
      OrphansIff(Run(es[..i - 1]).meaning, OpAt(es, i - 1));
    }
  }

  /** In every run, at every moment, a part that remains has its manifest, if and only if
      no step deletes a manifest while a part is there or writes a part where there is no
      manifest. */
  lemma AlwaysCoveredIff(es: seq<Event>)
    requires FreshIds(es)
    ensures AlwaysCovered(es) <==> NoOrphans(es)
  {
    hide Orphans, PartsCovered, Run, OpAt, InStep, PartsHaveManifests, FreshIds;
    forall i | 0 <= i <= |es|
      ensures PartsHaveManifests(Run(es[..i]).system.store) <==> PartsCovered(Run(es[..i]).meaning)
    {
      FreshIdsUpTo(es, i);
      RunSound(es[..i]);
      CoveredMeans(Run(es[..i]).system.store, Run(es[..i]).meaning);
    }
    if NoOrphans(es) {
      forall i | 0 <= i <= |es|
        ensures PartsHaveManifests(Run(es[..i]).system.store)
      {
        CoveredUpTo(es, i);
      }
    }
    if AlwaysCovered(es) {
      forall i | 0 <= i < |es|
        ensures !Orphans(Run(es[..i]).meaning, OpAt(es, i))
      {
        assert PartsHaveManifests(Run(es[..i + 1]).system.store);
        OneStep(es, i);
        OrphansIff(Run(es[..i]).meaning, OpAt(es, i));
      }
    }
  }

  // ---- when that comes about ----

  /** Event i is the listing of what call c is to delete. */
  predicate Lists(es: seq<Event>, i: nat, c: nat)
    requires i < |es|
  {
    es[i].Go? && es[i].call == c && c < |Run(es[..i]).system.calls| && Run(es[..i]).system.calls[c].pc.Listing?
  }

  /** An operation of call c fails at event j. */
  predicate Fails(es: seq<Event>, j: nat, c: nat)
    requires j < |es|
  {
    es[j].Go? && es[j].call == c && !es[j].ok
  }

  predicate Writes(es: seq<Event>, j: nat, u: UploadId)
    requires j < |es|
  {
    OpAt(es, j).PutPart? && OpAt(es, j).u == u
  }

  /** Since event i a part of the upload was written, or an operation of the call failed. */
  ghost predicate Disturbed(es: seq<Event>, i: nat, c: nat, u: UploadId) {
    exists j :: i <= j < |es| && (Fails(es, j, c) || Writes(es, j, u))
  }

  /** What a call is yet to delete is all that is there of parts, unless something has
      come in between. */
  ghost predicate DeletesAll(es: seq<Event>, a: State, c: nat, p: Call) {
    p.pc.Deleting? ==>
      exists i :: 0 <= i < |es| && Lists(es, i, c)
                  && (Disturbed(es, i, c, p.u) || CoversParts(a, p.u, p.pc.keys))
  }

  predicate CoversParts(a: State, u: UploadId, keys: seq<string>) {
    u in a.uploads && forall n :: n in a.uploads[u].parts ==> PartKey(u.0, u.1, n) in keys
  }

  ghost predicate AllDeleteAll(es: seq<Event>) {
    forall c :: 0 <= c < |Run(es).system.calls| ==> DeletesAll(es, Run(es).meaning, c, Run(es).system.calls[c])
  }

  lemma DisturbedOn(es: seq<Event>, i: nat, c: nat, u: UploadId)
    requires es != [] && Disturbed(es[..|es| - 1], i, c, u)
    ensures Disturbed(es, i, c, u)
  {
    hide Run, EventOp;
    FrontOps(es);
    var front := es[..|es| - 1];
    var j :| i <= j < |front| && (Fails(front, j, c) || Writes(front, j, u));
    assert front[j] == es[j];
    assert Fails(es, j, c) || Writes(es, j, u);
  }

  lemma ListsOn(es: seq<Event>, i: nat, c: nat)
    requires es != [] && i < |es| - 1 && Lists(es[..|es| - 1], i, c)
    ensures Lists(es, i, c)
  {
    hide Run;
    assert es[..|es| - 1][..i] == es[..i] && es[..|es| - 1][i] == es[i];
  }

  /** Another call's step, or one of the upload's own but the listing. */
  lemma StillCovers(a: State, op: StoreOp, u: UploadId, keys: seq<string>)
    requires CoversParts(a, u, keys) && Allowed(a, op) && !(op.PutPart? && op.u == u)
    ensures CoversParts(Interpreted(a, op), u, keys)
  {
    hide IsPartKey, IsUpload, Contains, PartKey;
  }

  lemma NextCovers(a: State, p: Call, ok: bool)
    requires p.pc.Deleting? && p.pc.keys != [] && ok && CoversParts(a, p.u, p.pc.keys) && Allowed(a, OpOf(p, ok))
    ensures CoversParts(Interpreted(a, OpOf(p, ok)), p.u, p.pc.keys[1..])
  {
    hide IsPartKey, IsUpload, Contains, PartKey;
    var keys := p.pc.keys;
    assert keys == [keys[0]] + keys[1..];
  }

  lemma ListingCovers(y: System, a: State, p: Call)
    requires Sound(y, a) && CallOk(a, p) && p.pc.Listing?
    ensures CoversParts(a, p.u, StagedParts(y.store, p.u))
  {
    hide InStep, StagedParts, PartKey, HandlesKnown, CallsOk;
    StagedAreParts(y.store, a, p.u);
  }

  /** One call's step, on what is known of it. */
  lemma OwnDeletesAll(es: seq<Event>, c: nat)
    requires FreshIds(es) && es != []
    requires var e := es[|es| - 1]; e.Go? && e.call == c
    requires c < |Run(es[..|es| - 1]).system.calls|
    requires DeletesAll(es[..|es| - 1], Run(es[..|es| - 1]).meaning, c, Run(es[..|es| - 1]).system.calls[c])
    ensures c < |Run(es).system.calls| && DeletesAll(es, Run(es).meaning, c, Run(es).system.calls[c])
  {
    hide InStep, FreshId, Interpreted, Allowed, OpOf, CoversParts, Disturbed, Lists, StagedParts, FreshIds, Apply,
         OpenUpload, PartKey;
    var last := |es| - 1;
    var front, e := es[..last], es[last];
    var y, a := Run(front).system, Run(front).meaning;
    var p := y.calls[c];
    OneStep(es, last);
    assert es[..last + 1] == es;
    FreshIdsUpTo(es, last);
    RunSound(front);
    assert CallOk(a, p);
    var p' := Run(es).system.calls[c];
    assert p' == p.(pc := NextPc(y.store, p, e.ok, e.n));
    if p.pc.Listing? {
      ListsNow(es, c);
      if e.ok {
        ListingCovers(y, a, p);
        ListingMeans(a, p, e.ok);
      } else {
        FailsNow(es, last, c, p.u);
      }
    } else if p'.pc.Deleting? {
      var i :| 0 <= i < |front| && Lists(front, i, c) && (Disturbed(front, i, c, p.u) || CoversParts(a, p.u, p.pc.keys));
      ListsOn(es, i, c);
      if Disturbed(front, i, c, p.u) {
        DisturbedOn(es, i, c, p.u);
      } else if !e.ok {
        FailsNow(es, i, c, p.u);
      } else {
        NextCovers(a, p, e.ok);
      }
    }
  }

  lemma ListingMeans(a: State, p: Call, ok: bool)
    requires p.pc.Listing?
    ensures Interpreted(a, OpOf(p, ok)) == a
  {
  }

  lemma ListsNow(es: seq<Event>, c: nat)
    requires es != []
    requires var last := |es| - 1;
             && es[last].Go? && es[last].call == c && c < |Run(es[..last]).system.calls|
             && Run(es[..last]).system.calls[c].pc.Listing?
    ensures Lists(es, |es| - 1, c)
  {
    hide Run;
  }

  lemma FailsNow(es: seq<Event>, i: nat, c: nat, u: UploadId)
    requires i < |es| && Fails(es, |es| - 1, c)
    ensures Disturbed(es, i, c, u)
  {
    hide Run, Fails, Writes;
  }

  lemma WritesNow(es: seq<Event>, i: nat, c: nat, u: UploadId)
    requires i < |es| && Writes(es, |es| - 1, u)
    ensures Disturbed(es, i, c, u)
  {
    hide Run, Fails, Writes;
  }

  /** A step of another call, on what is known of this one. */
  lemma OtherDeletesAll(es: seq<Event>, c: nat)
    requires FreshIds(es) && es != []
    requires var e := es[|es| - 1]; !(e.Go? && e.call == c)
    requires c < |Run(es[..|es| - 1]).system.calls|
    requires DeletesAll(es[..|es| - 1], Run(es[..|es| - 1]).meaning, c, Run(es[..|es| - 1]).system.calls[c])
    ensures c < |Run(es).system.calls| && DeletesAll(es, Run(es).meaning, c, Run(es).system.calls[c])
  {
    hide InStep, FreshId, Interpreted, Allowed, OpOf, CoversParts, Disturbed, Lists, StagedParts, FreshIds, Apply,
         OpenUpload, PartKey, Started, NextPc, NextHandles;
    var last := |es| - 1;
    var front, e := es[..last], es[last];
    var a := Run(front).meaning;
    var p := Run(front).system.calls[c];
    OneStep(es, last);
    assert es[..last + 1] == es;
    assert Run(es).system.calls[c] == p;
    if p.pc.Deleting? {
      var i :| 0 <= i < |front| && Lists(front, i, c) && (Disturbed(front, i, c, p.u) || CoversParts(a, p.u, p.pc.keys));
      ListsOn(es, i, c);
      if Disturbed(front, i, c, p.u) {
        DisturbedOn(es, i, c, p.u);
      } else if Writes(es, last, p.u) {
        WritesNow(es, i, c, p.u);
      } else {
        StillCovers(a, OpAt(es, last), p.u, p.pc.keys);
      }
    }
  }

  lemma NewDeletesNothing(es: seq<Event>, a: State, c: nat, y: System, request: Request)
    ensures DeletesAll(es, a, c, Started(y, request))
  {
    hide Contains, SortParts, FirstForeign;
  }

  lemma {:induction false} RunDeletesAll(es: seq<Event>)
    requires FreshIds(es)
    ensures AllDeleteAll(es)
    decreases |es|
  {
    hide FreshIds, DeletesAll, Started, NextPc, NextHandles, Apply, Interpreted, OpOf;
    if es != [] {
      var last := |es| - 1;
      var front, e := es[..last], es[last];
      FreshIdsUpTo(es, last);
      RunDeletesAll(front);
      forall c | 0 <= c < |Run(es).system.calls|
        ensures DeletesAll(es, Run(es).meaning, c, Run(es).system.calls[c])
      {
        if c == |Run(front).system.calls| {
          NewDeletesNothing(es, Run(es).meaning, c, Run(front).system, e.request);
        } else if e.Go? && e.call == c {
          OwnDeletesAll(es, c);
        } else {
          OtherDeletesAll(es, c);
        }
      }
    }
  }

  /** A call deletes the manifest at event k and leaves a part only if, since it listed
      what is staged, a part of the upload has been written or one of its operations has
      failed. */
  lemma OrphansOnlyIf(es: seq<Event>, k: nat)
    requires FreshIds(es) && k < |es| && OpAt(es, k).DropManifest? && Orphans(Run(es[..k]).meaning, OpAt(es, k))
    ensures es[k].Go? && exists i :: 0 <= i < k && Lists(es[..k], i, es[k].call)
                                    && Disturbed(es[..k], i, es[k].call, OpAt(es, k).u)
  {
    hide FreshIds, Disturbed, Lists, PartKey, Run;
    FreshIdsUpTo(es, k);
    RunDeletesAll(es[..k]);
    var y, a, c := Run(es[..k]).system, Run(es[..k]).meaning, es[k].call;
    var p := y.calls[c];
    assert p.pc == Deleting([]);
    assert DeletesAll(es[..k], a, c, p);
    var n :| n in a.uploads[p.u].parts;
    assert !CoversParts(a, p.u, []) by { NothingCovers(a, p.u, n); }
  }

  lemma NothingCovers(a: State, u: UploadId, n: int)
    requires u in a.uploads && n in a.uploads[u].parts
    ensures !CoversParts(a, u, [])
  {
    hide PartKey;
  }

  /** An upload that is not live has had its manifest deleted. */
  lemma {:induction false} DeadWasDropped(es: seq<Event>, u: UploadId)
    requires u in Run(es).meaning.uploads && !Run(es).meaning.uploads[u].live
    ensures exists j :: 0 <= j < |es| && OpAt(es, j) == DropManifest(u)
    decreases |es|
  {
    hide EventOp, Step, PartsBut;
    if es != [] {
      var last := |es| - 1;
      var a := Run(es[..last]).meaning;
      if u in a.uploads && !a.uploads[u].live {
        DeadWasDropped(es[..last], u);
        FrontOps(es);
        var j :| 0 <= j < last && OpAt(es[..last], j) == DropManifest(u);
        assert OpAt(es, j) == DropManifest(u);
      } else {
        assert OpAt(es, last) == DropManifest(u);
      }
    }
  }

  /** So the parts of a run are always covered if every listing and every deletion goes
      well, no part is written between the listing of a Commit or an Abort and its
      deletion of the manifest, and none afterwards: calls may interleave in any other
      way, and stop anywhere. */
  ghost predicate Orderly(es: seq<Event>) {
    && (forall k :: 0 <= k < |es| && OpAt(es, k).DropManifest? ==>
          forall i :: 0 <= i < k && Lists(es[..k], i, es[k].call) ==> !Disturbed(es[..k], i, es[k].call, OpAt(es, k).u))
    && (forall j, k :: 0 <= j < k < |es| && OpAt(es, j).DropManifest? && OpAt(es, k).PutPart? ==>
          OpAt(es, j).u != OpAt(es, k).u)
  }

  lemma OrderlyIsCovered(es: seq<Event>)
    requires FreshIds(es) && Orderly(es)
    ensures AlwaysCovered(es)
  {
    hide FreshIds, Disturbed, Lists, Run, OpAt, AlwaysCovered, Orphans;
    AlwaysCoveredIff(es);
    forall k | 0 <= k < |es|
      ensures !Orphans(Run(es[..k]).meaning, OpAt(es, k))
    {
      if Orphans(Run(es[..k]).meaning, OpAt(es, k)) {
        OrphansCases(Run(es[..k]).meaning, OpAt(es, k));
        if OpAt(es, k).DropManifest? {
          OrphansOnlyIf(es, k);
        } else {
          WrittenLate(es, k);
        }
      }
    }
  }

  lemma WrittenLate(es: seq<Event>, k: nat)
    requires k < |es| && OpAt(es, k).PutPart?
    requires var u := OpAt(es, k).u; u in Run(es[..k]).meaning.uploads && !Run(es[..k]).meaning.uploads[u].live
    ensures exists j :: 0 <= j < k && OpAt(es, j) == DropManifest(OpAt(es, k).u)
  {
    hide Run, EventOp;
    var u := OpAt(es, k).u;
    DeadWasDropped(es[..k], u);
    var j :| 0 <= j < k && OpAt(es[..k], j) == DropManifest(u);
    assert es[..k][..j] == es[..j];
    assert OpAt(es, j) == DropManifest(u);
  }

  lemma OrphansCases(a: State, op: StoreOp)
    requires Orphans(a, op)
    ensures op.DropManifest? || (op.PutPart? && op.u in a.uploads && !a.uploads[op.u].live)
  {
  }

  // ---- what a failure does ----

  /** A deletion that fails is passed over, and the manifest goes nevertheless: the part
      stays behind, and Open no longer finds the upload. */
  lemma FailedDeletionOrphans(y: System, a: State, c: nat, number: int)
    requires Sound(y, a) && c < |y.calls|
    requires var u := y.calls[c].u;
             y.calls[c].pc == Deleting([PartKey(u.0, u.1, number)]) && PartKey(u.0, u.1, number) in y.store
    ensures var u := y.calls[c].u;
            var t := Step(Step(y, Go(c, false, 0)), Go(c, true, 0)).store;
            PartKey(u.0, u.1, number) in t && ManifestKey(u.0, u.1) !in t && OpenUpload(t, u.0, u.1).Err?
  {
    hide InStep, PartKey, ManifestKey, CallsOk, HandlesKnown;
    var u := y.calls[c].u;
    var k := PartKey(u.0, u.1, number);
    ManifestIsNoPart(u.0, u.1, u.0, u.1, number);
    var y1 := Step(y, Go(c, false, 0));
    assert y1.store == y.store && y1.calls[c].pc == Deleting([k][1..]);
    assert [k][1..] == [];
  }
}
