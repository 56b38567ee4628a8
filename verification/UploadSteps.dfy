/** Uploads at the grain of single store operations: calls of any number of processes
    take their steps in any order, any operation may fail, and a call may stop for good
    at any point (blob/multipart/bucket.go:89-368). */
module UploadSteps {
  import opened Strings
  import opened PartNames
  import opened Staging
  import opened Parts
  import opened Multipart
  import opened Uploads

  /** A call; handles are named by the order in which they were obtained. */
  datatype Request =
    | New(key: string, id: string, opts: Option<Options>)
    | Open(key: string, id: string)
    | Store(handle: nat, number: int, reader: Reader)
    | CommitParts(handle: nat, parts: seq<Part>)
    | AbortUpload(handle: nat)

  /** What a call does next. */
  datatype Pc =
    | Creating                                    // write the manifest
    | Opening                                     // read it
    | Putting(number: int, reader: Reader)        // write a part
    | Undoing(number: int)                        // remove it, since something failed
    | Copying(rest: seq<Part>, bytes: Bytes)      // read the first of these parts
    | Publishing(bytes: Bytes, whole: bool)       // close the writer of the destination
    | Listing                                     // list what is staged
    | Deleting(keys: seq<string>)                 // delete the first of these, or the manifest
    | Returned(ok: bool)

  datatype Call = Call(u: UploadId, opts: Option<Options>, handle: nat, pc: Pc)

  /** The shared store, the handles that the processes hold, and their calls. */
  datatype System = System(store: Multipart.Store, handles: seq<Handle>, calls: seq<Call>)

  /** A call begins; or one does its next operation, which may fail, a read or a listing
      after n bytes or keys. */
  datatype Event = Begin(request: Request) | Go(call: nat, ok: bool, n: nat)

  /** What an operation does to the store. */
  datatype StoreOp =
    | Nothing
    | PutManifest(u: UploadId, opts: Option<Options>)
    | PutPart(u: UploadId, number: int, bytes: Bytes)
    | DropPart(u: UploadId, key: string)
    | DropManifest(u: UploadId)
    | Publish(key: string, content: Content)

  function IdOf(h: Handle): UploadId { (h.key, h.id) }

  /** What a call checks before it uses the store. */
  function Started(y: System, request: Request): Call {
    match request
    case New(key, id, opts) =>
      Call((key, id), opts, 0, if key == "" || Contains(key, STAGING_INFIX) then Returned(false) else Creating)
    case Open(key, id) => Call((key, id), None, 0, if key == "" || id == "" then Returned(false) else Opening)
    case Store(i, number, reader) =>
      On(y, i, if i < |y.handles| && !y.handles[i].finished && ValidatePartNumber(number, CONSTRAINTS).None?
               then Putting(number, reader) else Returned(false))
    case CommitParts(i, parts) =>
      On(y, i, if i < |y.handles| && PassesChecks(y.handles[i], parts)
               then Copying(SortParts(parts).value, []) else Returned(false))
    case AbortUpload(i) =>
      On(y, i, if i < |y.handles| && !y.handles[i].finished then Listing else Returned(i < |y.handles|))
  }

  function On(y: System, i: nat, pc: Pc): Call {
    if i < |y.handles| then Call(IdOf(y.handles[i]), y.handles[i].opts, i, pc)
    else Call(("", ""), None, i, Returned(false))
  }

  function Finished(handles: seq<Handle>, i: nat): seq<Handle> {
    if i < |handles| then handles[i := handles[i].(finished := true)] else handles
  }

  function OpOf(p: Call, ok: bool): StoreOp {
    if !ok then Nothing
    else
      match p.pc
      case Creating => PutManifest(p.u, p.opts)
      case Putting(number, reader) => PutPart(p.u, number, reader.bytes)
      case Undoing(number) => DropPart(p.u, PartKey(p.u.0, p.u.1, number))
      case Publishing(bytes, _) => Publish(p.u.0, Raw(bytes, p.opts))
      case Deleting(keys) => if keys == [] then DropManifest(p.u) else DropPart(p.u, keys[0])
      case _ => Nothing
  }

  function Apply(s: Multipart.Store, op: StoreOp): Multipart.Store {
    match op
    case Nothing => s
    case PutManifest(u, opts) => s[ManifestKey(u.0, u.1) := Json(u.0, opts)]
    case PutPart(u, number, bytes) => s[PartKey(u.0, u.1, number) := Raw(bytes, None)]
    case DropPart(_, key) => s - {key}
    case DropManifest(u) => s - {ManifestKey(u.0, u.1)}
    case Publish(key, content) => s[key := content]
  }

  function FirstBytes(bytes: Bytes, n: nat): Bytes {
    if n <= |bytes| then bytes[..n] else bytes
  }

  function FirstKeys(keys: seq<string>, n: nat): seq<string> {
    if n <= |keys| then keys[..n] else keys
  }

  /** What is staged but for the manifest. */
  function StagedParts(s: Multipart.Store, u: UploadId): seq<string> {
    Without(StagedKeys(s, StagingPrefix(u.0, u.1)), ManifestKey(u.0, u.1))
  }

  /** Where a call stands after its operation.  A deletion that fails is passed over. */
  function NextPc(s: Multipart.Store, p: Call, ok: bool, n: nat): Pc {
    match p.pc
    case Creating => Returned(ok)
    case Opening => Returned(ok && OpenUpload(s, p.u.0, p.u.1).Ok?)
    case Putting(number, reader) => if !ok || reader.fails then Undoing(number) else Returned(true)
    case Undoing(_) => Returned(false)
    case Copying(rest, bytes) =>
      if rest == [] then Publishing(bytes, true)
      else
        var k := PartKey(p.u.0, p.u.1, rest[0].number);
        if k !in s then Publishing(bytes, false)
        else if !ok then Publishing(bytes + FirstBytes(BytesOf(s[k]), n), false)
        else if |rest| == 1 then Publishing(bytes + BytesOf(s[k]), true)
        else Copying(rest[1..], bytes + BytesOf(s[k]))
    case Publishing(_, whole) => if ok && whole then Listing else Returned(false)
    case Listing => var keys := StagedParts(s, p.u); Deleting(if ok then keys else FirstKeys(keys, n))
    case Deleting(keys) => if keys == [] then Returned(true) else Deleting(keys[1..])
    case Returned(_) => p.pc
  }

  function NextHandles(y: System, p: Call, ok: bool): seq<Handle> {
    match p.pc
    case Creating => if ok then y.handles + [Handle(p.u.0, p.u.1, p.opts, false)] else y.handles
    case Opening =>
      (match OpenUpload(y.store, p.u.0, p.u.1)
       case Ok(h) => if ok then y.handles + [h] else y.handles
       case Err(_) => y.handles)
    case Publishing(_, whole) => if ok && whole then Finished(y.handles, p.handle) else y.handles
    case _ => y.handles
  }

  function Step(y: System, e: Event): System {
    match e
    case Begin(request) =>
      System(y.store,
             if request.AbortUpload? then Finished(y.handles, request.handle) else y.handles,
             y.calls + [Started(y, request)])
    case Go(c, ok, n) =>
      if c >= |y.calls| then y
      else
        var p := y.calls[c];
        System(Apply(y.store, OpOf(p, ok)), NextHandles(y, p, ok), y.calls[c := p.(pc := NextPc(y.store, p, ok, n))])
  }

  /** The operation that an event does. */
  function EventOp(y: System, e: Event): StoreOp {
    if e.Go? && e.call < |y.calls| then OpOf(y.calls[e.call], e.ok) else Nothing
  }

  // ---- the same, in terms of what the store means ----

  function Interpreted(a: State, op: StoreOp): State {
    match op
    case Nothing => a
    case PutManifest(u, opts) => WithUpload(a, u, Upload(true, opts, map[]))
    case PutPart(u, number, bytes) =>
      if u in a.uploads then WithUpload(a, u, a.uploads[u].(parts := a.uploads[u].parts[number := bytes])) else a
    case DropPart(u, key) =>
      if u in a.uploads then WithUpload(a, u, a.uploads[u].(parts := PartsBut(a.uploads[u].parts, u, key))) else a
    case DropManifest(u) =>
      if u in a.uploads then WithUpload(a, u, a.uploads[u].(live := false)) else a
    case Publish(key, content) => a.(blobs := a.blobs[key := content])
  }

  function PartsBut(parts: map<int, Bytes>, u: UploadId, key: string): map<int, Bytes> {
    map n | n in parts && PartKey(u.0, u.1, n) != key :: parts[n]
  }

  /** The key of some part of an upload. */
  ghost predicate IsPartKey(u: UploadId, key: string) {
    exists n :: 1 <= n <= MAX_PART_NUMBER && key == PartKey(u.0, u.1, n)
  }

  ghost predicate Allowed(a: State, op: StoreOp) {
    match op
    case Nothing => true
    case PutManifest(u, _) => IsUpload(u.0, u.1) && u !in a.uploads
    case PutPart(u, number, _) => u in a.uploads && 1 <= number <= MAX_PART_NUMBER
    case DropPart(u, key) => u in a.uploads && IsPartKey(u, key)
    case DropManifest(u) => u in a.uploads
    case Publish(key, _) => !Contains(key, STAGING_INFIX)
  }

  lemma PutManifestInStep(s: Multipart.Store, a: State, u: UploadId, opts: Option<Options>)
    requires InStep(s, a) && IsUpload(u.0, u.1) && u !in a.uploads
    ensures InStep(s[ManifestKey(u.0, u.1) := Json(u.0, opts)], WithUpload(a, u, Upload(true, opts, map[])))
  {
    hide InStep, ManifestKey, Contains;
    NewUploadInStep(s, a, u.0, u.1, opts);
  }

  lemma DropPartInStep(s: Multipart.Store, a: State, u: UploadId, n: int)
    requires InStep(s, a) && u in a.uploads && 1 <= n <= MAX_PART_NUMBER
    ensures var key := PartKey(u.0, u.1, n);
            && InStep(s - {key}, WithUpload(a, u, a.uploads[u].(parts := PartsBut(a.uploads[u].parts, u, key))))
            && PartsBut(a.uploads[u].parts, u, key) == a.uploads[u].parts - {n}
  {
    hide PartKey, Contains, IsHexId;
    var parts := a.uploads[u].parts;
    forall m | m in parts && m != n
      ensures PartKey(u.0, u.1, m) != PartKey(u.0, u.1, n)
    {
      PartsAreInts(a, u, m);
      if PartKey(u.0, u.1, m) == PartKey(u.0, u.1, n) {
        PartKeysDiffer(u.0, u.1, m, u.0, u.1, n);
      }
    }
    assert PartsBut(parts, u, PartKey(u.0, u.1, n)) == parts - {n};
    hide InStep;
    RemoveOnePart(s, a, u, n);
  }

  lemma DropManifestInStep(s: Multipart.Store, a: State, u: UploadId)
    requires InStep(s, a) && u in a.uploads
    ensures InStep(s - {ManifestKey(u.0, u.1)}, WithUpload(a, u, a.uploads[u].(live := false)))
  {
    hide StagingPrefix, PartName, Contains, IsUpload, ManifestKey, PartKey;
    var m := ManifestKey(u.0, u.1);
    var b := WithUpload(a, u, a.uploads[u].(live := false));
    var t := s - {m};
    assert IsUpload(u.0, u.1);
    KeysHavePrefix(u, 0);
    forall v, k | HoldsManifest(b, v, k)
      ensures k in t && t[k] == Json(v.0, b.uploads[v].opts)
    {
      assert HoldsManifest(a, v, k);
      NotOthers(a, u, v, 0, m);
    }
    forall v, n, k | HoldsPart(b, v, n, k)
      ensures k in t && t[k] == Raw(b.uploads[v].parts[n], None)
    {
      assert HoldsPart(a, v, n, k);
      ManifestIsNoPart(u.0, u.1, v.0, v.1, n);
    }
    forall k | k in b.blobs
      ensures k in t && t[k] == b.blobs[k]
    {
      NotOthers(a, u, u, 0, m);
    }
    forall k | k in t
      ensures k in b.blobs || (exists v :: HoldsManifest(b, v, k)) || (exists v, n :: HoldsPart(b, v, n, k))
    {
      forall v | HoldsManifest(a, v, k) ensures HoldsManifest(b, v, k) {
      }
      CarryOver(s, a, b, k);
    }
  }

  /** Every operation keeps the store in step with its meaning. */
  lemma OpInStep(s: Multipart.Store, a: State, op: StoreOp)
    requires InStep(s, a) && Allowed(a, op)
    ensures InStep(Apply(s, op), Interpreted(a, op))
  {
    hide InStep, ManifestKey, PartKey, Contains, IsUpload, PartsBut;
    match op
    case Nothing =>
    case PutManifest(u, opts) => PutManifestInStep(s, a, u, opts);
    case PutPart(u, number, bytes) => StoreOnePart(s, a, u, number, bytes);
    case DropPart(u, key) =>
      var n :| 1 <= n <= MAX_PART_NUMBER && key == PartKey(u.0, u.1, n);
      DropPartInStep(s, a, u, n);
    case DropManifest(u) => DropManifestInStep(s, a, u);
    case Publish(key, content) => PublishInStep(s, a, key, content);
  }

  // ---- what is known of a call ----

  ghost predicate CallOk(a: State, p: Call) {
    match p.pc
    case Creating => IsDestination(p.u.0)
    case Opening => true
    case Returned(_) => true
    case Putting(number, _) => p.u in a.uploads && 1 <= number <= MAX_PART_NUMBER
    case Undoing(number) => p.u in a.uploads && 1 <= number <= MAX_PART_NUMBER
    case Copying(rest, _) => p.u in a.uploads && rest != []
    case Publishing(_, _) => p.u in a.uploads
    case Listing => p.u in a.uploads
    case Deleting(keys) => p.u in a.uploads && forall k :: k in keys ==> IsPartKey(p.u, k)
  }

  ghost predicate HandlesKnown(a: State, handles: seq<Handle>) {
    forall i :: 0 <= i < |handles| ==> IdOf(handles[i]) in a.uploads
  }

  ghost predicate CallsOk(a: State, calls: seq<Call>) {
    forall i :: 0 <= i < |calls| ==> CallOk(a, calls[i])
  }

  ghost predicate Sound(y: System, a: State) {
    InStep(y.store, a) && HandlesKnown(a, y.handles) && CallsOk(a, y.calls)
  }

  /** New upload IDs are 16 random bytes in hexadecimal, and do not repeat. */
  predicate FreshId(a: State, op: StoreOp) {
    op.PutManifest? ==> IsHexId(op.u.1) && op.u !in a.uploads
  }

  /** Uploads are never forgotten. */
  lemma UploadsStay(a: State, op: StoreOp)
    ensures forall u :: u in a.uploads ==> u in Interpreted(a, op).uploads
  {
    hide PartsBut;
  }

  lemma StaysOk(a: State, b: State, p: Call)
    requires CallOk(a, p) && forall u :: u in a.uploads ==> u in b.uploads
    ensures CallOk(b, p)
  {
    hide IsPartKey, IsDestination;
  }

  lemma OpAllowed(s: Multipart.Store, a: State, p: Call, ok: bool)
    requires InStep(s, a) && CallOk(a, p) && FreshId(a, OpOf(p, ok))
    ensures Allowed(a, OpOf(p, ok))
  {
    hide Contains, IsHexId, PartKey;
    if p.pc.Undoing? {
      assert IsPartKey(p.u, PartKey(p.u.0, p.u.1, p.pc.number));
    }
    assert p.pc.Deleting? && p.pc.keys != [] ==> p.pc.keys[0] in p.pc.keys;
    assert p.u in a.uploads ==> IsUpload(p.u.0, p.u.1);
  }

  lemma StagedAreParts(s: Multipart.Store, a: State, u: UploadId)
    requires InStep(s, a) && u in a.uploads
    ensures forall k :: k in StagedParts(s, u) ==> IsPartKey(u, k)
    ensures forall n :: n in a.uploads[u].parts ==> PartKey(u.0, u.1, n) in StagedParts(s, u)
  {
    hide ManifestKey, PartKey, StagingPrefix, StagedKeys, IsUpload, Without;
    StagedKeysSpec(s, StagingPrefix(u.0, u.1));
    WithoutSpec(StagedKeys(s, StagingPrefix(u.0, u.1)), ManifestKey(u.0, u.1));
    assert IsUpload(u.0, u.1);
    forall k | k in StagedParts(s, u)
      ensures IsPartKey(u, k)
    {
      OwnObjects(s, a, u, k);
      var n :| HoldsPart(a, u, n, k);
      PartsAreInts(a, u, n);
    }
    forall n | n in a.uploads[u].parts
      ensures PartKey(u.0, u.1, n) in StagedParts(s, u)
    {
      StagedPartStored(s, a, u, n);
      ManifestIsNoPart(u.0, u.1, u.0, u.1, n);
    }
  }

  lemma FirstKeysIn(keys: seq<string>, n: nat)
    ensures forall k :: k in FirstKeys(keys, n) ==> k in keys
  {
  }

  lemma NextIsOk(s: Multipart.Store, a: State, b: State, p: Call, ok: bool, n: nat)
    requires InStep(s, a) && CallOk(a, p) && forall u :: u in a.uploads ==> u in b.uploads
    ensures CallOk(b, p.(pc := NextPc(s, p, ok, n)))
  {
    hide IsPartKey, IsDestination, InStep, StagedParts, PartKey, OpenUpload, FirstKeys;
    match p.pc
    case Listing =>
      StagedAreParts(s, a, p.u);
      FirstKeysIn(StagedParts(s, p.u), n);
    case Deleting(keys) =>
      assert keys != [] ==> forall k :: k in keys[1..] ==> k in keys;
    case _ =>
  }

  lemma StartedOk(y: System, a: State, request: Request)
    requires HandlesKnown(a, y.handles)
    ensures CallOk(a, Started(y, request))
  {
    hide Contains, SortParts, FirstForeign;
    if request.CommitParts? && request.handle < |y.handles| && PassesChecks(y.handles[request.handle], request.parts) {
      SortPartsSpec(request.parts);
      SameSizes(SortParts(request.parts).value, request.parts);
    }
  }

  lemma HandlesStayKnown(y: System, a: State, p: Call, ok: bool)
    requires Sound(y, a) && CallOk(a, p)
    ensures HandlesKnown(Interpreted(a, OpOf(p, ok)), NextHandles(y, p, ok))
  {
    hide InStep, CallsOk, PartKey, OpenUpload, PartsBut;
    UploadsStay(a, OpOf(p, ok));
    if p.pc.Opening? {
      OpenIsExact(y.store, a, p.u.0, p.u.1);
    }
  }

  /** Every step of every call keeps the store in step with its meaning, and the calls
      with theirs. */
  lemma StepSound(y: System, a: State, e: Event)
    requires Sound(y, a) && FreshId(a, EventOp(y, e))
    ensures Sound(Step(y, e), Interpreted(a, EventOp(y, e)))
  {
    hide InStep, Apply, Interpreted, OpOf, NextPc, CallOk, FreshId, NextHandles, Started, Allowed;
    match e
    case Begin(request) =>
      StartedOk(y, a, request);
      NothingMeans(a);
    case Go(c, ok, n) =>
      NothingMeans(a);
      if c < |y.calls| {
        var p, op := y.calls[c], OpOf(y.calls[c], ok);
        var b := Interpreted(a, op);
        OpAllowed(y.store, a, p, ok);
        OpInStep(y.store, a, op);
        UploadsStay(a, op);
        HandlesStayKnown(y, a, p, ok);
        NextIsOk(y.store, a, b, p, ok, n);
        forall i | 0 <= i < |y.calls|
          ensures CallOk(b, y.calls[i])
        {
          StaysOk(a, b, y.calls[i]);
        }
      }
  }

  lemma NothingMeans(a: State)
    ensures Interpreted(a, Nothing) == a
  {
  }

  // ---- runs ----

  datatype Both = Both(system: System, meaning: State)

  const START := Both(System(map[], [], []), State(map[], map[]))

  /** A run, and the meaning of the store after it. */
  function Run(es: seq<Event>): Both {
    if es == [] then START
    else
      var b, e := Run(es[..|es| - 1]), es[|es| - 1];
      Both(Step(b.system, e), Interpreted(b.meaning, EventOp(b.system, e)))
  }

  /** What event i of a run does to the store. */
  function OpAt(es: seq<Event>, i: nat): StoreOp
    requires i < |es|
  {
    EventOp(Run(es[..i]).system, es[i])
  }

  predicate FreshIds(es: seq<Event>) {
    forall i :: 0 <= i < |es| ==> FreshId(Run(es[..i]).meaning, OpAt(es, i))
  }

  lemma FrontOps(es: seq<Event>)
    requires es != []
    ensures forall i :: 0 <= i < |es| - 1 ==> OpAt(es[..|es| - 1], i) == OpAt(es, i)
  {
    hide EventOp, Run;
    var front := es[..|es| - 1];
    forall i | 0 <= i < |front|
      ensures OpAt(front, i) == OpAt(es, i)
    {
      assert front[..i] == es[..i];
    }
  }

  lemma FreshIdsFront(es: seq<Event>)
    requires FreshIds(es) && es != []
    ensures FreshIds(es[..|es| - 1]) && FreshId(Run(es[..|es| - 1]).meaning, OpAt(es, |es| - 1))
  {
    hide FreshId, Run, OpAt;
    var front := es[..|es| - 1];
    FrontOps(es);
    forall i | 0 <= i < |front|
      ensures FreshId(Run(front[..i]).meaning, OpAt(front, i))
    {
      assert front[..i] == es[..i];
    }
  }

  /** After every run from an empty bucket, at every moment, the store is in step with
      its meaning: one object per destination, live manifest and stored number, and no
      other. */
  lemma {:induction false} RunSound(es: seq<Event>)
    requires FreshIds(es)
    ensures Sound(Run(es).system, Run(es).meaning)
    decreases |es|
  {
    hide Step, Interpreted, FreshId, InStep, EventOp;
    if es == [] {
      StartSound();
    } else {
      FreshIdsFront(es);
      RunSound(es[..|es| - 1]);
      var b := Run(es[..|es| - 1]);
      StepSound(b.system, b.meaning, es[|es| - 1]);
    }
  }

  lemma StartSound()
    ensures Sound(START.system, START.meaning)
  {
  }

  // ---- IDs that do not repeat ----

  predicate IsNew(e: Event) {
    e.Begin? && e.request.New?
  }

  /** Every NewUploader call has its own ID of 32 hexadecimal digits, or at least its own
      key. */
  predicate OwnIds(es: seq<Event>) {
    && (forall i :: 0 <= i < |es| && IsNew(es[i]) ==> IsHexId(es[i].request.id))
    && forall i, j :: 0 <= i < j < |es| && IsNew(es[i]) && IsNew(es[j]) ==>
         (es[i].request.key, es[i].request.id) != (es[j].request.key, es[j].request.id)
  }

  function NewIds(es: seq<Event>): set<UploadId> {
    if es == [] then {}
    else
      var e := es[|es| - 1];
      NewIds(es[..|es| - 1]) + if IsNew(e) then {(e.request.key, e.request.id)} else {}
  }

  lemma {:induction false} NewIdsAre(es: seq<Event>, u: UploadId)
    requires u in NewIds(es)
    ensures exists i :: 0 <= i < |es| && IsNew(es[i]) && u == (es[i].request.key, es[i].request.id)
    decreases |es|
  {
    var front := es[..|es| - 1];
    if u in NewIds(front) {
      NewIdsAre(front, u);
      var i :| 0 <= i < |front| && IsNew(front[i]) && u == (front[i].request.key, front[i].request.id);
      assert es[i] == front[i];
    }
  }

  /** A call that is about to write a manifest is the only one of its upload, and the first. */
  predicate NewsApart(known: set<UploadId>, a: State, calls: seq<Call>) {
    && (forall u :: u in a.uploads ==> u in known)
    && (forall i :: 0 <= i < |calls| && calls[i].pc.Creating? ==>
          calls[i].u in known && calls[i].u !in a.uploads && IsHexId(calls[i].u.1))
    && forall i, j :: 0 <= i < j < |calls| && calls[i].pc.Creating? && calls[j].pc.Creating? ==> calls[i].u != calls[j].u
  }

  lemma NewsStayApart(known: set<UploadId>, y: System, a: State, e: Event)
    requires NewsApart(known, a, y.calls)
    requires IsNew(e) ==> IsHexId(e.request.id) && (e.request.key, e.request.id) !in known
    ensures FreshId(a, EventOp(y, e))
    ensures NewsApart(known + (if IsNew(e) then {(e.request.key, e.request.id)} else {}),
                      Interpreted(a, EventOp(y, e)), Step(y, e).calls)
  {
    hide IsHexId, OpenUpload, PartsBut, ValidatePartNumber, PassesChecks, Contains, StagedParts, NextHandles, Apply,
         ManifestKey, PartKey, SortParts;
    if e.Begin? {
      NothingMeans(a);
    }
  }

  /** So uploads whose IDs are their own are fresh, whatever the calls do. */
  lemma {:induction false} OwnIdsAreFresh(es: seq<Event>)
    requires OwnIds(es)
    ensures FreshIds(es) && NewsApart(NewIds(es), Run(es).meaning, Run(es).system.calls)
    decreases |es|
  {
    hide NewsApart, Step, Interpreted, EventOp, FreshId, IsHexId;
    if es != [] {
      var n := |es| - 1;
      var front, e := es[..n], es[n];
      OwnIdsAreFresh(front);
      if IsNew(e) && (e.request.key, e.request.id) in NewIds(front) {
        NewIdsAre(front, (e.request.key, e.request.id));
      }
      NewsStayApart(NewIds(front), Run(front).system, Run(front).meaning, e);
      FrontOps(es);
      forall i | 0 <= i < |es|
        ensures FreshId(Run(es[..i]).meaning, OpAt(es, i))
      {
        assert i < n ==> es[..i] == front[..i] && FreshId(Run(front[..i]).meaning, OpAt(front, i));
      }
    } else {
      NothingNew();
    }
  }

  lemma NothingNew()
    ensures NewsApart({}, START.meaning, START.system.calls)
  {
  }
}
