/** What becomes of the parts of an upload over runs in which calls interleave, stop and
    fail at any store operation: what Commit publishes, and when a stored part is lost
    (blob/multipart/bucket.go:198-368). */
module UploadCommits {
  import opened Strings
  import opened PartNames
  import opened Staging
  import opened Parts
  import opened Multipart
  import opened Uploads
  import opened UploadSteps
  import opened UploadCovers

  // ---- destinations ----

  /** No step of any call but the closing of Commit's writer changes a destination, and
      that one changes its own only. */
  lemma OnlyPublishWrites(s: Multipart.Store, a: State, op: StoreOp, key: string)
    requires InStep(s, a) && Allowed(a, op) && !Contains(key, STAGING_INFIX)
    ensures !(op.Publish? && op.key == key) ==>
              (key in s <==> key in Apply(s, op)) && (key in s ==> s[key] == Apply(s, op)[key])
  {
    hide InStep, Contains, StagingPrefix, PartName, IsUpload;
    match op
    case PutManifest(u, _) => StagedIsNoDestination(u.0, u.1, MANIFEST_NAME);
    case PutPart(u, n, _) => StagedIsNoDestination(u.0, u.1, PartName(n));
    case DropPart(u, k) =>
      var n :| 1 <= n <= MAX_PART_NUMBER && k == PartKey(u.0, u.1, n);
      StagedIsNoDestination(u.0, u.1, PartName(n));
    case DropManifest(u) => StagedIsNoDestination(u.0, u.1, MANIFEST_NAME);
    case _ =>
  }

  // ---- what Commit publishes ----

  /** The contents of some numbers, one after the other. */
  function Concatenated(parts: map<int, Bytes>, ps: seq<Part>): Bytes {
    if ps == [] then []
    else (if ps[0].number in parts then parts[ps[0].number] else []) + Concatenated(parts, ps[1..])
  }

  lemma {:induction false} CopiesAre(s: Multipart.Store, a: State, h: Handle, ps: seq<Part>)
    requires InStep(s, a) && IdOf(h) in a.uploads
    requires forall i :: 0 <= i < |ps| ==> ps[i].number in a.uploads[IdOf(h)].parts
    ensures CopyParts(s, h, ps) == Copied(Concatenated(a.uploads[IdOf(h)].parts, ps), None)
    decreases |ps|
  {
    hide InStep, PartKey, StagingPrefix, CopyParts;
    if ps == [] {
      CopyNothing(s, h);
    } else {
      StagedPartStored(s, a, IdOf(h), ps[0].number);
      assert forall i :: 0 <= i < |ps| - 1 ==> ps[1..][i] == ps[i + 1];
      CopiesAre(s, a, h, ps[1..]);
      CopyOne(s, h, ps);
    }
  }

  /** Does an operation change an upload or its destination? */
  predicate Touches(op: StoreOp, u: UploadId) {
    match op
    case Nothing => false
    case PutManifest(v, _) => v == u
    case PutPart(v, _, _) => v == u
    case DropPart(v, _) => v == u
    case DropManifest(v) => v == u
    case Publish(key, _) => key == u.0
  }

  predicate IsPublished(a: State, u: UploadId, content: Content) {
    u.0 in a.blobs && a.blobs[u.0] == content
  }

  /** Where a Commit stands that has begun when the parts were these. */
  predicate CommitAt(a: State, p: Call, u: UploadId, opts: Option<Options>, parts: map<int, Bytes>, total: Bytes) {
    && p.u == u && p.opts == opts && u in a.uploads
    && match p.pc
       case Copying(rest, bytes) =>
         && a.uploads[u].parts == parts && rest != [] && (forall i :: 0 <= i < |rest| ==> rest[i].number in parts)
         && bytes + Concatenated(parts, rest) == total
       case Publishing(bytes, whole) => a.uploads[u].parts == parts && whole && bytes == total
       case Listing => IsPublished(a, u, Raw(total, opts))
       case Deleting(keys) => IsPublished(a, u, Raw(total, opts)) && CoversParts(a, u, keys)
       case Returned(ok) =>
         ok && IsPublished(a, u, Raw(total, opts)) && !a.uploads[u].live && (forall n :: n !in a.uploads[u].parts)
       case _ => false
  }

  lemma OthersKeepCommit(a: State, op: StoreOp, p: Call, u: UploadId, opts: Option<Options>, parts: map<int, Bytes>,
                         total: Bytes)
    requires CommitAt(a, p, u, opts, parts, total) && !Touches(op, u)
    ensures CommitAt(Interpreted(a, op), p, u, opts, parts, total)
  {
    hide PartKey, Concatenated, PartsBut;
  }

  lemma CopyStep(s: Multipart.Store, a: State, p: Call, u: UploadId, opts: Option<Options>, parts: map<int, Bytes>,
                 total: Bytes, n: nat)
    requires InStep(s, a) && CommitAt(a, p, u, opts, parts, total) && p.pc.Copying?
    ensures CommitAt(a, p.(pc := NextPc(s, p, true, n)), u, opts, parts, total)
  {
    hide InStep, PartKey, StagingPrefix, FirstBytes;
    var rest, bytes := p.pc.rest, p.pc.bytes;
    StagedPartStored(s, a, u, rest[0].number);
    var first := parts[rest[0].number];
    assert bytes + (first + Concatenated(parts, rest[1..])) == (bytes + first) + Concatenated(parts, rest[1..]);
    if |rest| == 1 {
      assert rest[1..] == [] && (bytes + first) + [] == bytes + first;
    } else {
      assert forall i :: 0 <= i < |rest| - 1 ==> rest[1..][i] == rest[i + 1];
    }
  }

  /** A step of the Commit itself, if its operation goes well. */
  lemma CommitSteps(s: Multipart.Store, a: State, p: Call, u: UploadId, opts: Option<Options>, parts: map<int, Bytes>,
                    total: Bytes, n: nat)
    requires InStep(s, a) && CallOk(a, p) && CommitAt(a, p, u, opts, parts, total)
    ensures CommitAt(Interpreted(a, OpOf(p, true)), p.(pc := NextPc(s, p, true, n)), u, opts, parts, total)
  {
    hide InStep, PartKey, StagedParts, Concatenated, CopyParts, FirstBytes, FirstKeys, IsPartKey, PartsBut;
    match p.pc
    case Copying(rest, bytes) => CopyStep(s, a, p, u, opts, parts, total, n);
    case Publishing(bytes, whole) =>
    case Listing => StagedAreParts(s, a, u);
    case Deleting(keys) => DeleteStep(a, p, u, opts, total);
    case _ =>
  }

  lemma DeleteStep(a: State, p: Call, u: UploadId, opts: Option<Options>, total: Bytes)
    requires p.pc.Deleting? && p.u == u && IsPublished(a, u, Raw(total, opts)) && CoversParts(a, u, p.pc.keys)
    ensures var b := Interpreted(a, OpOf(p, true));
            && u in b.uploads && IsPublished(b, u, Raw(total, opts))
            && if p.pc.keys == [] then !b.uploads[u].live && (forall n :: n !in b.uploads[u].parts)
               else CoversParts(b, u, p.pc.keys[1..])
  {
    hide PartKey;
    var keys := p.pc.keys;
    if keys != [] {
      assert keys == [keys[0]] + keys[1..];
    }
  }

  /** Since the Commit c has begun, its own operations have gone well, and no other call
      has touched its upload or its destination. */
  predicate Undisturbed(es: seq<Event>, start: nat, c: nat, u: UploadId) {
    forall j :: start <= j < |es| ==>
      if es[j].Go? && es[j].call == c then es[j].ok else !Touches(OpAt(es, j), u)
  }

  lemma UndisturbedFront(es: seq<Event>, start: nat, c: nat, u: UploadId)
    requires Undisturbed(es, start, c, u) && start < |es|
    ensures Undisturbed(es[..|es| - 1], start, c, u)
  {
    hide Touches, Run, EventOp;
    FrontOps(es);
    var front := es[..|es| - 1];
    forall j | start <= j < |front|
      ensures if front[j].Go? && front[j].call == c then front[j].ok else !Touches(OpAt(front, j), u)
    {
      assert front[j] == es[j];
    }
  }

  lemma {:induction false} CommitStays(es: seq<Event>, start: nat, c: nat, u: UploadId, opts: Option<Options>,
                                      parts: map<int, Bytes>, total: Bytes)
    requires FreshIds(es) && start <= |es| && Undisturbed(es, start, c, u)
    requires c < |Run(es[..start]).system.calls|
    requires CommitAt(Run(es[..start]).meaning, Run(es[..start]).system.calls[c], u, opts, parts, total)
    ensures c < |Run(es).system.calls| && CommitAt(Run(es).meaning, Run(es).system.calls[c], u, opts, parts, total)
    decreases |es|
  {
    hide FreshIds, CommitAt, Interpreted, NextPc, NextHandles, Apply, OpOf, Touches, InStep, HandlesKnown, CallOk,
         Started;
    if start == |es| {
      assert es[..start] == es;
    } else {
      var last := |es| - 1;
      var front, e := es[..last], es[last];
      assert front[..start] == es[..start];
      FreshIdsUpTo(es, last);
      UndisturbedFront(es, start, c, u);
      CommitStays(front, start, c, u, opts, parts, total);
      RunSound(front);
      var y, a := Run(front).system, Run(front).meaning;
      if e.Go? && e.call == c {
        CommitSteps(y.store, a, y.calls[c], u, opts, parts, total, e.n);
      } else {
        OthersKeepCommit(a, OpAt(es, last), y.calls[c], u, opts, parts, total);
      }
    }
  }

  /** A Commit begins with what ListParts lists, in any order. */
  lemma CommitBegins(y: System, a: State, i: nat, parts: seq<Part>)
    requires Sound(y, a) && i < |y.handles| && !y.handles[i].finished
    requires var h := y.handles[i];
             ListParts(y.store, h).Ok? && ListParts(y.store, h).value != []
             && multiset(parts) == multiset(ListParts(y.store, h).value)
    ensures var h := y.handles[i];
            && IdOf(h) in a.uploads
            && CommitAt(a, Started(y, CommitParts(i, parts)), IdOf(h), h.opts, a.uploads[IdOf(h)].parts,
                        Assembled(a.uploads[IdOf(h)].parts, MAX_PART_NUMBER))
  {
    hide InStep, ListParts, CopyParts, Assembled, SortParts, FirstForeign, CallsOk, Contains, Concatenated;
    var h := y.handles[i];
    assert IdOf(h) in a.uploads;
    ReadyToCommit(y.store, a, h, parts);
    SortPartsSpec(parts);
    SameSizes(SortParts(parts).value, parts);
    SameSizes(parts, ListParts(y.store, h).value);
    CopiesAre(y.store, a, h, SortParts(parts).value);
    var ordered := SortParts(parts).value;
    assert [] + Concatenated(a.uploads[IdOf(h)].parts, ordered) == Concatenated(a.uploads[IdOf(h)].parts, ordered);
  }

  /** End to end: after any run, with calls that have failed, or stopped anywhere, or
      are under way, an unfinished handle of an upload with parts may commit what
      ListParts lists, in any order.  If then its own operations go well, and no other
      call touches the upload or the destination, whatever else they do, Commit succeeds:
      the destination is the concatenation in ascending number of the last content stored
      per number, and no object of the upload remains. */
  lemma CommitAfterAnyRun(es: seq<Event>, start: nat, i: nat, parts: seq<Part>)
    requires FreshIds(es) && start < |es| && es[start] == Begin(CommitParts(i, parts))
    requires var y := Run(es[..start]).system;
             && i < |y.handles| && !y.handles[i].finished
             && ListParts(y.store, y.handles[i]).Ok? && ListParts(y.store, y.handles[i]).value != []
             && multiset(parts) == multiset(ListParts(y.store, y.handles[i]).value)
             && Undisturbed(es, start + 1, |y.calls|, IdOf(y.handles[i]))
             && |y.calls| < |Run(es).system.calls| && Run(es).system.calls[|y.calls|].pc.Returned?
    ensures var y, a, t := Run(es[..start]).system, Run(es[..start]).meaning, Run(es).system;
            var h := y.handles[i];
            && IdOf(h) in a.uploads && t.calls[|y.calls|].pc.ok
            && h.key in t.store && t.store[h.key] == Raw(Assembled(a.uploads[IdOf(h)].parts, MAX_PART_NUMBER), h.opts)
            && (forall k :: k in t.store ==> !HasPrefix(k, Prefix(h)))
  {
    hide Run, InStep, ListParts, StagingPrefix, Assembled, FreshIds, Undisturbed, CommitAt, Started, HandlesKnown,
         CallsOk, HasPrefix;
    var y, a := Run(es[..start]).system, Run(es[..start]).meaning;
    var h, c := y.handles[i], |y.calls|;
    FreshIdsUpTo(es, start);
    RunSound(es[..start]);
    CommitBegins(y, a, i, parts);
    BeginsCall(es, start);
    var total := Assembled(a.uploads[IdOf(h)].parts, MAX_PART_NUMBER);
    CommitStays(es, start + 1, c, IdOf(h), h.opts, a.uploads[IdOf(h)].parts, total);
    RunSound(es);
    CommitEnds(Run(es).system, Run(es).meaning, Run(es).system.calls[c], h, a.uploads[IdOf(h)].parts, total);
  }

  lemma BeginsCall(es: seq<Event>, start: nat)
    requires start < |es| && es[start].Begin?
    ensures var y := Run(es[..start]).system;
            && Run(es[..start + 1]).system.calls == y.calls + [Started(y, es[start].request)]
            && Run(es[..start + 1]).meaning == Run(es[..start]).meaning
  {
    hide Started;
    assert es[..start + 1][..start] == es[..start];
    NothingMeans(Run(es[..start]).meaning);
  }

  lemma CommitEnds(t: System, b: State, p: Call, h: Handle, parts: map<int, Bytes>, total: Bytes)
    requires InStep(t.store, b) && CommitAt(b, p, IdOf(h), h.opts, parts, total) && p.pc.Returned?
    ensures p.pc.ok && h.key in t.store && t.store[h.key] == Raw(total, h.opts)
    ensures forall k :: k in t.store ==> !HasPrefix(k, Prefix(h))
  {
    hide StagingPrefix, ManifestKey, PartKey, IsUpload, Contains;
    assert IsUpload(h.key, h.id);
    forall k | k in t.store
      ensures !HasPrefix(k, Prefix(h))
    {
      if HasPrefix(k, Prefix(h)) {
        OwnObjects(t.store, b, IdOf(h), k);
      }
    }
  }
}
