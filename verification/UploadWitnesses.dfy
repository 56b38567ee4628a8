/** Runs that show how an upload can lose its manifest or a part that was stored
    (blob/multipart/bucket.go:198-224, 333-368). */
module UploadWitnesses {
  import opened Strings
  import opened Numerals
  import opened Staging
  import opened Multipart
  import opened Uploads
  import opened UploadSteps
  import opened UploadCovers

  lemma {:induction false} RunThrough(states: seq<Both>, es: seq<Event>)
    requires |states| == |es| + 1 && states[0] == START
    requires forall n :: 0 <= n < |es| ==>
               && states[n + 1].system == Step(states[n].system, es[n])
               && states[n + 1].meaning == Interpreted(states[n].meaning, EventOp(states[n].system, es[n]))
    ensures forall n :: 0 <= n <= |es| ==> Run(es[..n]) == states[n]
  {
    hide Step, Interpreted, EventOp;
    if es == [] {
      assert es[..0] == [];
    } else {
      var last := |es| - 1;
      RunThrough(states[..last + 1], es[..last]);
      assert forall n :: 0 <= n <= last ==> es[..last][..n] == es[..n];
      assert es[..last + 1] == es && es[..last + 1][..last] == es[..last];
      assert Run(es[..last]) == states[last];
      assert es[..|es|] == es;
    }
  }

  const ID := "00000000000000000000000000000000"

  function Calling(i: nat, opts: Option<Options>, pc: Pc): Call { Call(("k", ID), opts, i, pc) }

  lemma HexId()
    ensures IsHexId(ID) && IsUpload("k", ID) && !Contains("k", STAGING_INFIX)
  {
    assert DIGITS[0] == '0' && '0' in DIGITS;
    assert forall c :: c in ID ==> c == '0';
  }

  /** An upload with one part, and an Abort whose listing fails at once. */
  const FAILED_LISTING: seq<Event> :=
    [Begin(New("k", ID, None)), Go(0, true, 0), Begin(Store(0, 1, Reader([], false))), Go(1, true, 0),
     Begin(AbortUpload(0)), Go(2, false, 0), Go(2, true, 0)]

  /** The states of that run. */
  function FailedListingStates(): seq<Both> {
    var m, k := ManifestKey("k", ID), PartKey("k", ID, 1);
    var h := Handle("k", ID, None, false);
    var made, put := Calling(0, None, Returned(true)), Calling(0, None, Putting(1, Reader([], false)));
    var gone := h.(finished := true);
    var s1: Multipart.Store := map[m := Json("k", None)];
    var s2 := s1[k := Raw([], None)];
    var a0 := State(map[], map[]);
    var a1 := WithUpload(a0, ("k", ID), Upload(true, None, map[]));
    var a2 := WithUpload(a1, ("k", ID), Upload(true, None, map[1 := []]));
    [START,
     Both(System(map[], [], [Calling(0, None, Creating)]), a0),
     Both(System(s1, [h], [made]), a1),
     Both(System(s1, [h], [made, put]), a1),
     Both(System(s2, [h], [made, made]), a2),
     Both(System(s2, [gone], [made, made, Calling(0, None, Listing)]), a2),
     Both(System(s2, [gone], [made, made, Calling(0, None, Deleting([]))]), a2),
     Both(System(s2 - {m}, [gone], [made, made, made]), WithUpload(a2, ("k", ID), Upload(false, None, map[1 := []])))]
  }

  lemma FailedListingSteps(n: nat)
    requires n < 7
    ensures var s := FailedListingStates();
            && s[n + 1].system == Step(s[n].system, FAILED_LISTING[n])
            && s[n + 1].meaning == Interpreted(s[n].meaning, EventOp(s[n].system, FAILED_LISTING[n]))
            && FreshId(s[n].meaning, EventOp(s[n].system, FAILED_LISTING[n]))
  {
    hide ManifestKey, PartKey, Contains, IsHexId, StagedParts, OpenUpload;
    HexId();
    if n == 5 {
      assert FirstKeys(StagedParts(FailedListingStates()[5].system.store, ("k", ID)), 0) == [];
    }
  }

  /** "The manifest goes last so that a partial delete leaves an upload Open can still
      find and retry" is false where the listing fails: the manifest goes first. */
  lemma FailedListingOrphans()
    ensures FreshIds(FAILED_LISTING) && !AlwaysCovered(FAILED_LISTING)
  {
    hide ManifestKey, PartKey, Step, Interpreted, EventOp, FreshId, Contains, IsHexId;
    var es, states := FAILED_LISTING, FailedListingStates();
    forall n | 0 <= n < 7
      ensures && states[n + 1].system == Step(states[n].system, es[n])
              && states[n + 1].meaning == Interpreted(states[n].meaning, EventOp(states[n].system, es[n]))
              && FreshId(states[n].meaning, EventOp(states[n].system, es[n]))
    {
      FailedListingSteps(n);
    }
    RunThrough(states, es);
    HexId();
    ManifestIsNoPart("k", ID, "k", ID, 1);
    assert es[..7] == es;
    assert !PartsHaveManifests(Run(es[..7]).system.store);
  }

  /** An upload whose part 1 is retried while the first attempt, which has failed, is
      still to remove what it has written. */
  const RETRY: seq<Event> :=
    [Begin(New("k", ID, None)), Go(0, true, 0), Begin(Store(0, 1, Reader([], true))), Go(1, true, 0),
     Begin(Store(0, 1, Reader([1], false))), Go(2, true, 0), Go(1, true, 0)]

  /** The states of that run. */
  function RetryStates(): seq<Both> {
    var m, k := ManifestKey("k", ID), PartKey("k", ID, 1);
    var h := Handle("k", ID, None, false);
    var made, put := Calling(0, None, Returned(true)), Calling(0, None, Putting(1, Reader([], true)));
    var undo := Calling(0, None, Undoing(1));
    var again := Calling(0, None, Putting(1, Reader([1], false)));
    var s1: Multipart.Store := map[m := Json("k", None)];
    var s2 := s1[k := Raw([], None)];
    var s3 := s2[k := Raw([1], None)];
    var a0 := State(map[], map[]);
    var u := ("k", ID);
    var a1 := WithUpload(a0, u, Upload(true, None, map[]));
    var a2 := WithUpload(a1, u, Upload(true, None, map[1 := []]));
    var a3 := WithUpload(a2, u, Upload(true, None, map[1 := []][1 := [1]]));
    [START,
     Both(System(map[], [], [Calling(0, None, Creating)]), a0),
     Both(System(s1, [h], [made]), a1),
     Both(System(s1, [h], [made, put]), a1),
     Both(System(s2, [h], [made, undo]), a2),
     Both(System(s2, [h], [made, undo, again]), a2),
     Both(System(s3, [h], [made, undo, made]), a3),
     Both(System(s3 - {k}, [h], [made, Calling(0, None, Returned(false)), made]), Interpreted(a3, DropPart(u, k)))]
  }

  lemma RetryBegins(n: nat)
    requires n < 4
    ensures var s := RetryStates();
            && s[n + 1].system == Step(s[n].system, RETRY[n])
            && s[n + 1].meaning == Interpreted(s[n].meaning, EventOp(s[n].system, RETRY[n]))
            && FreshId(s[n].meaning, EventOp(s[n].system, RETRY[n]))
  {
    hide ManifestKey, PartKey, Contains, IsHexId, StagedParts, OpenUpload, PartsBut;
    HexId();
  }

  lemma RetryEnds(n: nat)
    requires 4 <= n < 7
    ensures var s := RetryStates();
            && s[n + 1].system == Step(s[n].system, RETRY[n])
            && s[n + 1].meaning == Interpreted(s[n].meaning, EventOp(s[n].system, RETRY[n]))
            && FreshId(s[n].meaning, EventOp(s[n].system, RETRY[n]))
  {
    hide ManifestKey, PartKey, Contains, IsHexId, StagedParts, OpenUpload, PartsBut;
  }

  /** The second attempt has returned its part without an error, and the part is gone. */
  lemma RetryIsLost()
    ensures FreshIds(RETRY)
    ensures var t := Run(RETRY).system;
            |t.calls| == 3 && t.calls[2].pc == Returned(true) && PartKey("k", ID, 1) !in t.store
  {
    hide ManifestKey, PartKey, Step, Interpreted, EventOp, FreshId, Contains, IsHexId;
    var es, states := RETRY, RetryStates();
    forall n | 0 <= n < 7
      ensures && states[n + 1].system == Step(states[n].system, es[n])
              && states[n + 1].meaning == Interpreted(states[n].meaning, EventOp(states[n].system, es[n]))
              && FreshId(states[n].meaning, EventOp(states[n].system, es[n]))
    {
      if n < 4 {
        RetryBegins(n);
      } else {
        RetryEnds(n);
      }
    }
    RunThrough(states, es);
    assert es[..7] == es;
  }
}
