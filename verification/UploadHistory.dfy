/** Which content a part has after any run, and when one that was stored is lost
    (blob/multipart/bucket.go:198-224). */
module UploadHistory {
  import opened Strings
  import opened PartNames
  import opened Staging
  import opened Multipart
  import opened Uploads
  import opened UploadSteps
  import opened UploadCovers

  /** The operations that change a part. */
  predicate OnPart(op: StoreOp, u: UploadId, n: int) {
    || (op.PutPart? && op.u == u && op.number == n)
    || (op.DropPart? && op.u == u && op.key == PartKey(u.0, u.1, n))
  }

  /** Event i has written the part, and no later one has changed it. */
  predicate LastPut(es: seq<Event>, i: nat, u: UploadId, n: int, bytes: Bytes) {
    && i < |es| && OpAt(es, i) == PutPart(u, n, bytes)
    && forall j :: i < j < |es| ==> !OnPart(OpAt(es, j), u, n)
  }

  predicate Holds(a: State, u: UploadId, n: int, bytes: Bytes) {
    u in a.uploads && n in a.uploads[u].parts && a.uploads[u].parts[n] == bytes
  }

  lemma OtherOps(a: State, op: StoreOp, u: UploadId, n: int, bytes: Bytes)
    requires Allowed(a, op) && !OnPart(op, u, n)
    ensures Holds(Interpreted(a, op), u, n, bytes) <==> Holds(a, u, n, bytes)
  {
    hide PartKey, IsUpload, Contains, IsPartKey;
  }

  lemma OwnOps(a: State, op: StoreOp, u: UploadId, n: int, bytes: Bytes)
    requires Allowed(a, op) && OnPart(op, u, n)
    ensures Holds(Interpreted(a, op), u, n, bytes) <==> op == PutPart(u, n, bytes)
  {
    hide PartKey, IsUpload, Contains, IsPartKey;
  }

  lemma LastPutFront(es: seq<Event>, i: nat, u: UploadId, n: int, bytes: Bytes)
    requires es != [] && !OnPart(OpAt(es, |es| - 1), u, n)
    ensures LastPut(es, i, u, n, bytes) <==> LastPut(es[..|es| - 1], i, u, n, bytes)
  {
    hide OnPart, Run, EventOp;
    FrontOps(es);
    var front := es[..|es| - 1];
    if LastPut(front, i, u, n, bytes) {
      assert OpAt(es, i) == OpAt(front, i);
      forall j | i < j < |es|
        ensures !OnPart(OpAt(es, j), u, n)
      {
        if j < |front| {
          assert OpAt(es, j) == OpAt(front, j);
        }
      }
    }
    if LastPut(es, i, u, n, bytes) {
      assert i != |es| - 1 by { PutIsOnPart(u, n, bytes); }
      assert OpAt(es, i) == OpAt(front, i);
      forall j | i < j < |front|
        ensures !OnPart(OpAt(front, j), u, n)
      {
        assert OpAt(es, j) == OpAt(front, j);
      }
    }
  }

  lemma PutIsOnPart(u: UploadId, n: int, bytes: Bytes)
    ensures OnPart(PutPart(u, n, bytes), u, n)
  {
  }

  lemma {:induction false} HoldsIff(es: seq<Event>, u: UploadId, n: int, bytes: Bytes)
    requires FreshIds(es)
    ensures Holds(Run(es).meaning, u, n, bytes) <==> exists i :: LastPut(es, i, u, n, bytes)
    decreases |es|
  {
    if es == [] {
    } else {
      hide FreshIds, LastPut, OnPart, Holds, Interpreted, Allowed, EventOp, Run;
      var last := |es| - 1;
      var front, op := es[..last], OpAt(es, last);
      FreshIdsUpTo(es, last);
      HoldsIff(front, u, n, bytes);
      OneStep(es, last);
      assert es[..last + 1] == es;
      if OnPart(op, u, n) {
        OwnOps(Run(front).meaning, op, u, n, bytes);
        LastPutNow(es, u, n, bytes);
      } else {
        OtherOps(Run(front).meaning, op, u, n, bytes);
        forall i: nat
          ensures LastPut(es, i, u, n, bytes) <==> LastPut(front, i, u, n, bytes)
        {
          LastPutFront(es, i, u, n, bytes);
        }
      }
    }
  }

  lemma LastPutNow(es: seq<Event>, u: UploadId, n: int, bytes: Bytes)
    requires es != [] && OnPart(OpAt(es, |es| - 1), u, n)
    ensures (exists i :: LastPut(es, i, u, n, bytes)) <==> OpAt(es, |es| - 1) == PutPart(u, n, bytes)
  {
    hide OnPart, Run, EventOp;
    if OpAt(es, |es| - 1) == PutPart(u, n, bytes) {
      assert LastPut(es, |es| - 1, u, n, bytes);
    }
  }

  /** After every run, at every moment, a part is stored with certain bytes exactly if
      some step has written them and no step since has written or deleted that part: the
      last to write wins, whichever call it belongs to. */
  lemma PartIsLastPut(es: seq<Event>, u: UploadId, n: int, bytes: Bytes)
    requires FreshIds(es) && IsUpload(u.0, u.1) && 1 <= n <= MAX_PART_NUMBER
    ensures var s, k := Run(es).system.store, PartKey(u.0, u.1, n);
            k in s && s[k] == Raw(bytes, None) <==> exists i :: LastPut(es, i, u, n, bytes)
  {
    hide FreshIds, LastPut, Run, InStep, PartKey, IsUpload;
    HoldsIff(es, u, n, bytes);
    RunSound(es);
    var s, a, k := Run(es).system.store, Run(es).meaning, PartKey(u.0, u.1, n);
    if k in s {
      PartIsKnown(s, a, u, n);
      StagedPartStored(s, a, u, n);
    }
    if Holds(a, u, n, bytes) {
      StagedPartStored(s, a, u, n);
    }
  }

  // ---- parts that get lost ----

  /** Event j is the removal of the part by a call of UploadPart that has failed. */
  predicate Undoes(es: seq<Event>, j: nat, u: UploadId, n: int)
    requires j < |es|
  {
    var y := Run(es[..j]).system;
    && es[j].Go? && es[j].ok && es[j].call < |y.calls|
    && y.calls[es[j].call].u == u && y.calls[es[j].call].pc == Undoing(n)
  }

  /** Event j belongs to the deletions of a Commit or an Abort of the upload. */
  predicate Clears(es: seq<Event>, j: nat, u: UploadId)
    requires j < |es|
  {
    var y := Run(es[..j]).system;
    && es[j].Go? && es[j].call < |y.calls|
    && y.calls[es[j].call].u == u && y.calls[es[j].call].pc.Deleting?
  }

  lemma OnPartCases(es: seq<Event>, j: nat, u: UploadId, n: int)
    requires FreshIds(es) && j < |es| && IsInt64(n) && IsUpload(u.0, u.1) && OnPart(OpAt(es, j), u, n)
    ensures OpAt(es, j).PutPart? || Undoes(es, j, u, n) || Clears(es, j, u)
  {
    hide InStep, PartKey, IsUpload, Run, HandlesKnown;
    FreshIdsUpTo(es, j);
    RunSound(es[..j]);
    var y, a := Run(es[..j]).system, Run(es[..j]).meaning;
    var p := y.calls[es[j].call];
    assert CallOk(a, p);
    if p.pc.Undoing? {
      PartKeysDiffer(u.0, u.1, p.pc.number, u.0, u.1, n);
    }
  }

  lemma UndoesIsOnPart(es: seq<Event>, j: nat, u: UploadId, n: int)
    requires j < |es| && Undoes(es, j, u, n)
    ensures OnPart(OpAt(es, j), u, n)
  {
    hide Run, PartKey;
  }

  /** A part has been stored at event i, and since then no call has stored it again and
      no Commit or Abort has deleted anything of the upload.  Then it is still there if
      and only if no call of UploadPart for that number has failed and removed it: such a
      call removes what is there, and not only what it has written itself. */
  lemma StoredPartLostIff(es: seq<Event>, i: nat, u: UploadId, n: int, bytes: Bytes)
    requires FreshIds(es) && i < |es| && OpAt(es, i) == PutPart(u, n, bytes)
    requires forall j :: i < j < |es| ==> !Clears(es, j, u) && !(OpAt(es, j).PutPart? && OnPart(OpAt(es, j), u, n))
    ensures var s, k := Run(es).system.store, PartKey(u.0, u.1, n);
            k in s && s[k] == Raw(bytes, None) <==> forall j :: i < j < |es| ==> !Undoes(es, j, u, n)
  {
    hide FreshIds, Run, InStep, PartKey, EventOp, OnPart, Undoes, Clears;
    PutIsKnown(es, i);
    PartIsLastPut(es, u, n, bytes);
    forall j | i < j < |es|
      ensures OnPart(OpAt(es, j), u, n) <==> Undoes(es, j, u, n)
    {
      if OnPart(OpAt(es, j), u, n) {
        OnPartCases(es, j, u, n);
      }
      if Undoes(es, j, u, n) {
        UndoesIsOnPart(es, j, u, n);
      }
    }
    if forall j :: i < j < |es| ==> !Undoes(es, j, u, n) {
      assert LastPut(es, i, u, n, bytes);
    }
    if m: nat :| LastPut(es, m, u, n, bytes) {
      PutIsOnPart(u, n, bytes);
      assert m <= i;
      forall j | i < j < |es|
        ensures !Undoes(es, j, u, n)
      {
        assert !OnPart(OpAt(es, j), u, n);
      }
    }
  }

  lemma PutIsKnown(es: seq<Event>, i: nat)
    requires FreshIds(es) && i < |es| && OpAt(es, i).PutPart?
    ensures var op := OpAt(es, i); IsUpload(op.u.0, op.u.1) && 1 <= op.number <= MAX_PART_NUMBER
  {
    hide FreshIds, Run, InStep, EventOp, IsUpload;
    OneStep(es, i);
    FreshIdsUpTo(es, i);
    RunSound(es[..i]);
    UploadIsKnown(Run(es[..i]).system.store, Run(es[..i]).meaning, OpAt(es, i).u);
  }

  lemma UploadIsKnown(s: Multipart.Store, a: State, u: UploadId)
    requires InStep(s, a) && u in a.uploads
    ensures IsUpload(u.0, u.1)
  {
    hide IsUpload, Contains;
  }
}
