/** One call after the other: what a call that returns no error leaves behind, and that
    every blob keeps a sidecar with the MD5 of its bytes
    (blob/sftpblob/sftpblob.go:1047-1206). */
module SftpSequential {
  import opened Strings
  import opened SftpPaths
  import opened SftpFiles
  import opened SftpCommit
  import opened SftpRuns
  import opened SftpQuiet

  /** The events of one call, with nothing else going on. */
  function ProcRun(c: Config, r: Remote, p: Proc, es: seq<Event>): (Remote, Proc) {
    if es == [] then (r, p)
    else
      var (r', p') := ProcRun(c, r, p, es[..|es| - 1]);
      ProcStep(c, r', p', es[|es| - 1])
  }

  /** What a copy finds in the place of the sidecar. */
  function AttrsAt(files: Files, k: string): File {
    if Sidecar(k) in files then files[Sidecar(k)] else Attrs(DEFAULT_META, [])
  }

  /** The sidecar that the call is to write, the files being those at its start. */
  predicate AttrsOk(c: Config, before: Files, p: Proc) {
    match p.job
    case Write(k, meta, _, _) => p.attrs == Attrs(meta, c.hash(p.given))
    case Copy(_, src) => p.pc == CopyAttrs || !c.sidecars || p.attrs == AttrsAt(before, src)
    case Delete(_) => true
  }

  /** How far the call has come since it began; heard: no answer to it got lost. */
  predicate Progress(c: Config, before: Files, r: Remote, p: Proc, heard: bool) {
    var files := r.files;
    var blob, sidecar := Blob(p.job.key), Sidecar(p.job.key);
    && (p.checked && (p.pc != DropTemp && (p.pc != Done || p.ok)) ==> AttrsOk(c, before, p))
    && (p.job.Copy? && p.pc != Idle && (p.pc != Done || p.ok) ==>
          Blob(p.job.src) in before && before[Blob(p.job.src)] == Data(p.given))
    && (!p.won && !p.job.Delete? ==> Same(before, files, sidecar))
    && (!p.won && heard && !p.job.Delete? ==> Same(before, files, blob) || blob !in files)
    && (p.won && !p.job.Delete? ==> blob in files && files[blob] == Data(p.given))
    && (p.won && p.ok && c.sidecars ==> sidecar in files && files[sidecar] == p.attrs)
    && (!c.sidecars && !p.job.Delete? ==> Same(before, files, sidecar))
    && (p.job.Delete? && (p.pc == RemoveSidecar || p.ok) ==> blob !in files)
    && (p.job.Delete? ==> (Same(before, files, blob) && Same(before, files, sidecar)) || blob !in files)
    && (p.pc == Idle ==> files == before)
    && (p.job.Delete? ==> !p.won)
  }

  predicate SeqReady(c: Config, before: Files, r: Remote, p: Proc, heard: bool) {
    ProcOk(c, r, p) && WonOk(c, p) && Progress(c, before, r, p, heard)
  }

  predicate SeqDone(c: Config, before: Files, r: Remote, p: Proc, heard: bool) {
    WonOk(c, p) && Progress(c, before, r, p, heard)
  }

  lemma AttrsKept(c: Config, before: Files, p: Proc)
    ensures forall pc, won, ok :: p.pc != CopyAttrs && AttrsOk(c, before, p) ==>
              AttrsOk(c, before, p.(pc := pc, won := won, ok := ok))
  {
  }

  ghost predicate SeqInv(c: Config, before: Remote, r: Remote, p: Proc, heard: bool) {
    && ProcOk(c, r, p)
    && WonOk(c, p)
    && Progress(c, before.files, r, p, heard)
    && Framed(before, r, p)
    && before.clock <= r.clock
    && (p.hasTemp ==> before.clock <= p.tag)
  }

  lemma OpenProgress(c: Config, before: Files, r: Remote, p: Proc, heard: bool, o: Outcome, n: nat, next: Pc)
    requires SeqReady(c, before, r, p, heard)
    requires (p.pc == Idle && p.job.Write? && next == Writing) || (p.pc == CopyTemp && next == CopyBytes)
    ensures var (r', p') := OpenStep(r, p, o, n, next); SeqDone(c, before, r', p', heard && o != Lost)
  {
    hide MD5Matches;
  }

  lemma ChunkProgress(c: Config, before: Files, r: Remote, p: Proc, heard: bool, chunk: Bytes, ok: bool, n: nat)
    requires SeqReady(c, before, r, p, heard)
    requires p.pc == Writing
    ensures var (r', p') := ChunkStep(r, p, chunk, ok, n); SeqDone(c, before, r', p', heard)
  {
    hide MD5Matches, Take;
  }

  lemma CloseProgress(c: Config, before: Files, r: Remote, p: Proc, heard: bool, o: Outcome)
    requires SeqReady(c, before, r, p, heard)
    requires p.pc == Writing
    ensures var (r', p') := CloseStep(c, r, p, o); SeqDone(c, before, r', p', heard && o != Lost)
  {
    hide MD5Matches;
  }

  lemma CopyBytesProgress(c: Config, before: Files, r: Remote, p: Proc, heard: bool, o: Outcome, n: nat)
    requires SeqReady(c, before, r, p, heard)
    requires p.pc == CopyBytes
    ensures var (r', p') := CopyBytesStep(c, r, p, o, n); SeqDone(c, before, r', p', heard && o != Lost)
  {
    hide MD5Matches, Take;
  }

  lemma ReadAttrsProgress(c: Config, before: Files, r: Remote, p: Proc, heard: bool, o: Outcome)
    requires SeqReady(c, before, r, p, heard)
    requires p.pc == CopyAttrs && Same(before, r.files, Sidecar(p.job.src))
    ensures var (r', p') := ReadAttrsStep(r, p, o); SeqDone(c, before, r', p', heard && o != Lost)
  {
    hide MD5Matches;
  }

  lemma StageAttrsProgress(c: Config, before: Files, r: Remote, p: Proc, heard: bool, o: Outcome)
    requires SeqReady(c, before, r, p, heard)
    requires p.pc == StageAttrs
    ensures var (r', p') := StageAttrsStep(r, p, o); SeqDone(c, before, r', p', heard && o != Lost)
  {
    hide MD5Matches;
  }

  lemma EncodeAttrsProgress(c: Config, before: Files, r: Remote, p: Proc, heard: bool, o: Outcome)
    requires SeqReady(c, before, r, p, heard)
    requires p.pc == EncodeAttrs
    ensures var (r', p') := EncodeAttrsStep(r, p, o); SeqDone(c, before, r', p', heard && o != Lost)
  {
    hide MD5Matches;
  }

  lemma CloseAttrsProgress(c: Config, before: Files, r: Remote, p: Proc, heard: bool, o: Outcome)
    requires SeqReady(c, before, r, p, heard)
    requires p.pc == CloseAttrs
    ensures var (r', p') := CloseAttrsStep(r, p, o); SeqDone(c, before, r', p', heard && o != Lost)
  {
    hide MD5Matches;
  }

  lemma BlobCommitted(c: Config, before: Files, r: Remote, p: Proc, heard: bool, r': Remote, p': Proc, heard': bool)
    requires SeqReady(c, before, r, p, heard) && p.pc.Commit? && !p.pc.side
    requires p' == p.(pc := p'.pc, won := p'.won, ok := p'.ok)
    requires Same(r.files, r'.files, Sidecar(p.job.key)) && (heard' ==> heard)
    requires if p'.won then p'.pc == (if c.sidecars then Commit(true, Posix) else Done) && p'.ok == !c.sidecars
             else !p'.ok && ((p'.pc.Commit? && !p'.pc.side) || p'.pc == DropAttrs || p'.pc == DropTemp)
    requires p'.won ==> Blob(p.job.key) in r'.files && r'.files[Blob(p.job.key)] == Data(p.given)
    requires !p'.won && heard' ==> Same(r.files, r'.files, Blob(p.job.key)) || Blob(p.job.key) !in r'.files
    ensures SeqDone(c, before, r', p', heard')
  {
    hide MD5Matches, AttrsAt;
  }

  lemma CommitBlobProgress(c: Config, before: Files, r: Remote, p: Proc, heard: bool, o: Outcome)
    requires SeqReady(c, before, r, p, heard) && p.pc.Commit? && !p.pc.side
    ensures var (r', p') := CommitBlobStep(c, r, p, p.pc.stage, o); SeqDone(c, before, r', p', heard && o != Lost)
  {
    hide RenameStep, ProcOk, Progress;
    var src, dst := TempOf(p), Blob(p.job.key);
    CommitKnows(c, r, p);
    RenameFrame(c, r, src, dst, p.pc.stage, o);
    RenameElsewhere(c, r, src, dst, p.pc.stage, o, Sidecar(p.job.key));
    var (r', p') := CommitBlobStep(c, r, p, p.pc.stage, o);
    assert !p.ok && !p.won;
    hide WonOk;
    BlobCommitted(c, before, r, p, heard, r', p', heard && o != Lost);
  }

  lemma CommitSidecarProgress(c: Config, before: Files, r: Remote, p: Proc, heard: bool, o: Outcome)
    requires SeqReady(c, before, r, p, heard) && p.pc.Commit? && p.pc.side
    ensures var (r', p') := CommitSidecarStep(c, r, p, p.pc.stage, o); SeqDone(c, before, r', p', heard && o != Lost)
  {
    hide RenameStep, ProcOk, AttrsOk;
    var src, dst := TempSidecarOf(p), Sidecar(p.job.key);
    CommitKnows(c, r, p);
    RenameFrame(c, r, src, dst, p.pc.stage, o);
    RenameElsewhere(c, r, src, dst, p.pc.stage, o, Blob(p.job.key));
    AttrsKept(c, before, p);
  }

  lemma DropProgress(c: Config, before: Files, r: Remote, p: Proc, heard: bool, o: Outcome, n: nat)
    requires SeqReady(c, before, r, p, heard) && (p.pc == DropAttrs || p.pc == DropTemp || p.pc == UndoAttrs)
    ensures var (r', p') := ProcStep(c, r, p, Go(o, n)); SeqDone(c, before, r', p', heard && o != Lost)
  {
    hide MD5Matches, RenameStep, AttrsAt;
  }

  lemma CopyOpenProgress(c: Config, before: Files, r: Remote, p: Proc, heard: bool, o: Outcome)
    requires SeqReady(c, before, r, p, heard) && p.pc == Idle && p.job.Copy?
    ensures var (r', p') := CopyOpenStep(r, p, o); SeqDone(c, before, r', p', heard && o != Lost)
  {
    hide AttrsAt;
  }

  lemma DeleteProgress(c: Config, before: Files, r: Remote, p: Proc, heard: bool, o: Outcome)
    requires SeqReady(c, before, r, p, heard) && p.pc == Idle && p.job.Delete?
    ensures var (r', p') := DeleteStep(r, p, o); SeqDone(c, before, r', p', heard && o != Lost)
  {
    hide AttrsAt;
  }

  lemma OtherProgress(c: Config, before: Files, r: Remote, p: Proc, heard: bool, o: Outcome, n: nat)
    requires SeqReady(c, before, r, p, heard) && (p.pc == RemoveSidecar || p.pc == Done)
    ensures var (r', p') := ProcStep(c, r, p, Go(o, n)); SeqDone(c, before, r', p', heard && o != Lost)
  {
    hide MD5Matches, RenameStep, AttrsAt;
  }

  lemma ProcProgress(c: Config, before: Files, r: Remote, p: Proc, heard: bool, e: Event)
    requires SeqReady(c, before, r, p, heard)
    requires p.job.Copy? && p.job.src != p.job.key ==> Same(before, r.files, Sidecar(p.job.src))
    ensures var (r', p') := ProcStep(c, r, p, e); SeqDone(c, before, r', p', heard && !IsLost(e))
  {
    hide ChunkStep, CloseStep, OpenStep, CopyBytesStep, ReadAttrsStep, StageAttrsStep, EncodeAttrsStep, CloseAttrsStep;
    hide CommitBlobStep, CommitSidecarStep, DeleteStep, CopyOpenStep, Drop, Apply, MD5Matches;
    match e
    case Cancel =>
    case Chunk(chunk, ok, n) => if p.pc == Writing { ChunkProgress(c, before, r, p, heard, chunk, ok, n); }
    case Go(o, n) =>
      match p.pc
      case Idle =>
        if p.job.Write? { OpenProgress(c, before, r, p, heard, o, n, Writing); }
        else if p.job.Copy? { CopyOpenProgress(c, before, r, p, heard, o); }
        else { DeleteProgress(c, before, r, p, heard, o); }
      case CopyTemp => OpenProgress(c, before, r, p, heard, o, n, CopyBytes);
      case Writing => CloseProgress(c, before, r, p, heard, o);
      case CopyBytes => CopyBytesProgress(c, before, r, p, heard, o, n);
      case CopyAttrs => ReadAttrsProgress(c, before, r, p, heard, o);
      case StageAttrs => StageAttrsProgress(c, before, r, p, heard, o);
      case EncodeAttrs => EncodeAttrsProgress(c, before, r, p, heard, o);
      case CloseAttrs => CloseAttrsProgress(c, before, r, p, heard, o);
      case UndoAttrs => DropProgress(c, before, r, p, heard, o, n);
      case Commit(side, _) =>
        if side { CommitSidecarProgress(c, before, r, p, heard, o); } else { CommitBlobProgress(c, before, r, p, heard, o); }
      case DropAttrs => DropProgress(c, before, r, p, heard, o, n);
      case DropTemp => DropProgress(c, before, r, p, heard, o, n);
      case _ => OtherProgress(c, before, r, p, heard, o, n);
  }

  /** No answer got lost. */
  predicate Heard(es: seq<Event>) {
    forall n :: 0 <= n < |es| ==> !IsLost(es[n])
  }

  lemma HeardSnoc(es: seq<Event>)
    requires es != []
    ensures Heard(es) <==> Heard(es[..|es| - 1]) && !IsLost(es[|es| - 1])
  {
    hide IsLost;
  }

  lemma NothingHeard(es: seq<Event>)
    requires es == []
    ensures Heard(es)
  {
  }

  lemma SeqStart(c: Config, r: Remote, j: Job)
    requires forall k :: Blob(k) in r.files ==> r.files[Blob(k)].Data?
    ensures SeqInv(c, r, r, NewProc(j), true)
  {
    hide MD5Matches;
  }

  lemma {:induction false} SeqRun(c: Config, r: Remote, j: Job, es: seq<Event>)
    requires forall k :: Blob(k) in r.files ==> r.files[Blob(k)].Data?
    ensures var (r', p') := ProcRun(c, r, NewProc(j), es); SeqInv(c, r, r', p', Heard(es)) && p'.job == j
  {
    hide SeqInv, ProcStep, Heard;
    if es == [] {
      SeqStart(c, r, j);
      NothingHeard(es);
    } else {
      var n := |es| - 1;
      SeqRun(c, r, j, es[..n]);
      var (r1, p1) := ProcRun(c, r, NewProc(j), es[..n]);
      HeardSnoc(es);
      SeqStep(c, r, r1, p1, Heard(es[..n]), es[n]);
    }
  }

  lemma SeqStep(c: Config, before: Remote, r: Remote, p: Proc, heard: bool, e: Event)
    requires SeqInv(c, before, r, p, heard)
    ensures var (r', p') := ProcStep(c, r, p, e); SeqInv(c, before, r', p', heard && !IsLost(e)) && p'.job == p.job
  {
    hide ProcStep, ProcOk, Progress, WonOk, IsLost;
    var (r', p') := ProcStep(c, r, p, e);
    assert p.job.Copy? && p.job.src != p.job.key ==> Same(before.files, r.files, Sidecar(p.job.src));
    ProcStepOk(c, r, p, e);
    ProcProgress(c, before.files, r, p, heard, e);
    forall q | !Touches(p', q)
      ensures Same(before.files, r'.files, q)
    {
      assert !Touches(p, q);
      assert Same(before.files, r.files, q) && Same(r.files, r'.files, q);
    }
  }

  /** What a call that returns no error has done: a write leaves all its bytes and
      their MD5, a copy the bytes and the attributes of its source, a delete nothing;
      and nothing happens to any other key. */
  predicate HasDone(c: Config, before: Files, after: Files, j: Job, given: Bytes) {
    var k := j.key;
    if j.Delete? then Blob(k) !in after
    else
      && Blob(k) in after && after[Blob(k)] == Data(given)
      && (j.Copy? ==> Blob(j.src) in before && before[Blob(j.src)] == Data(given))
      && (c.sidecars ==>
            && Sidecar(k) in after
            && after[Sidecar(k)] == if j.Write? then Attrs(j.meta, c.hash(given)) else AttrsAt(before, j.src))
  }

  lemma CallThatSucceeds(c: Config, r: Remote, j: Job, es: seq<Event>)
    requires forall k :: Blob(k) in r.files ==> r.files[Blob(k)].Data?
    requires ProcRun(c, r, NewProc(j), es).1.ok
    ensures var (r', p') := ProcRun(c, r, NewProc(j), es);
            && HasDone(c, r.files, r'.files, j, p'.given)
            && (forall k :: k != j.key ==> Same(r.files, r'.files, Blob(k)) && Same(r.files, r'.files, Sidecar(k)))
  {
    hide MD5Matches;
    SeqRun(c, r, j, es);
    var (r', p') := ProcRun(c, r, NewProc(j), es);
    hide ProcRun;
    assert forall k :: k != j.key ==> !Touches(p', Blob(k)) && !Touches(p', Sidecar(k));
  }

  /** Every blob has a sidecar with the MD5 of its bytes. */
  ghost predicate Consistent(c: Config, files: Files) {
    forall k :: Blob(k) in files ==> KeyConsistent(c, files, k)
  }

  predicate KeyConsistent(c: Config, files: Files, k: string)
    requires Blob(k) in files
  {
    && files[Blob(k)].Data? && Sidecar(k) in files && files[Sidecar(k)].Attrs?
    && files[Sidecar(k)].md5 == c.hash(files[Blob(k)].bytes)
  }

  /** A call keeps it so if it returns no error, with posix-rename as with the fallback;
      and also if it does, as long as none of its answers got lost and its blob has not
      been renamed into place without its sidecar. */
  lemma ConsistentKept(c: Config, r: Remote, j: Job, es: seq<Event>)
    requires c.sidecars && Consistent(c, r.files)
    requires var p' := ProcRun(c, r, NewProc(j), es).1; p'.pc == Done && (p'.ok || (Heard(es) && !p'.won))
    ensures Consistent(c, ProcRun(c, r, NewProc(j), es).0.files)
  {
    hide MD5Matches, Heard;
    assert forall k :: Blob(k) in r.files ==> KeyConsistent(c, r.files, k);
    SeqRun(c, r, j, es);
    var (r', p') := ProcRun(c, r, NewProc(j), es);
    hide ProcRun;
    forall k | Blob(k) in r'.files
      ensures KeyConsistent(c, r'.files, k)
    {
      if k != j.key {
        assert Same(r.files, r'.files, Blob(k)) && Same(r.files, r'.files, Sidecar(k));
      }
    }
  }

  /** A call and what happens to it. */
  datatype Call = Call(job: Job, events: seq<Event>)

  function Calls(c: Config, r: Remote, calls: seq<Call>): Remote {
    if calls == [] then r
    else
      var last := calls[|calls| - 1];
      ProcRun(c, Calls(c, r, calls[..|calls| - 1]), NewProc(last.job), last.events).0
  }

  ghost predicate AllSucceed(c: Config, r: Remote, calls: seq<Call>) {
    forall n :: 0 <= n < |calls| ==>
      ProcRun(c, Calls(c, r, calls[..n]), NewProc(calls[n].job), calls[n].events).1.ok
  }

  lemma SucceedFront(c: Config, r: Remote, calls: seq<Call>)
    requires AllSucceed(c, r, calls) && calls != []
    ensures AllSucceed(c, r, calls[..|calls| - 1])
    ensures var n := |calls| - 1; ProcRun(c, Calls(c, r, calls[..n]), NewProc(calls[n].job), calls[n].events).1.ok
  {
    hide ProcRun, Calls;
    var front := calls[..|calls| - 1];
    assert forall m :: 0 <= m < |front| ==> front[..m] == calls[..m] && front[m] == calls[m];
  }

  lemma OkIsDone(c: Config, r: Remote, j: Job, es: seq<Event>)
    requires Consistent(c, r.files) && ProcRun(c, r, NewProc(j), es).1.ok
    ensures ProcRun(c, r, NewProc(j), es).1.pc == Done
  {
    hide ProcRun, Progress, ProcOk, Heard;
    assert forall k :: Blob(k) in r.files ==> KeyConsistent(c, r.files, k);
    SeqRun(c, r, j, es);
  }

  /** After any writes, copies and deletes that return no error, beginning with an empty
      bucket, every blob has a sidecar with the MD5 of its bytes. */
  lemma {:induction false} SidecarsStayTrue(c: Config, r: Remote, calls: seq<Call>)
    requires c.sidecars && r.files == map[] && AllSucceed(c, r, calls)
    ensures Consistent(c, Calls(c, r, calls).files)
  {
    if calls != [] {
      hide ProcRun, AllSucceed, Consistent, Heard;
      var n := |calls| - 1;
      SucceedFront(c, r, calls);
      SidecarsStayTrue(c, r, calls[..n]);
      var before := Calls(c, r, calls[..n]);
      OkIsDone(c, before, calls[n].job, calls[n].events);
      ConsistentKept(c, before, calls[n].job, calls[n].events);
    }
  }

  /** The first steps of a write of nothing, up to the writing of its sidecar... */
  lemma WriteToSidecar(c: Config, r: Remote)
    requires c.sidecars && r.files == map[] && !r.latch
    ensures var (r1, p1) := ProcStep(c, r, NewProc(Write("k", "", [], false)), Go(Ok, 0));
            var (r2, p2) := ProcStep(c, r1, p1, Go(Ok, 0));
            var (r3, p3) := ProcStep(c, r2, p2, Go(Ok, 0));
            && p3.pc == EncodeAttrs && p3.job == Write("k", "", [], false) && p3.tag == r.clock && !r3.latch && !p3.ok
            && r3.files == map[Temp("k", r.clock) := Data([]), TempSidecar("k", r.clock) := Torn]
  {
  }

  /** ...and from there to the renaming of its blob. */
  lemma SidecarWritten(c: Config, r: Remote, p: Proc)
    requires c.posix && p.pc == EncodeAttrs && p.job == Write("k", "", [], false)
    ensures var (r4, p4) := ProcStep(c, r, p, Go(Ok, 0));
            var (r5, p5) := ProcStep(c, r4, p4, Go(Ok, 0));
            && p5 == p.(pc := Commit(false, Posix)) && r5.latch == r.latch
            && r5.files == r.files[TempSidecarOf(p) := p.attrs]
  {
  }

  lemma SidecarFails(c: Config, r: Remote, p: Proc)
    requires c.posix && c.sidecars && p.pc == Commit(false, Posix) && !r.latch && !p.ok && TempOf(p) in r.files
    requires Sidecar(p.job.key) !in r.files
    ensures var (r4, p4) := ProcStep(c, r, p, Go(Ok, 0));
            var (r5, p5) := ProcStep(c, r4, p4, Go(Fail, 0));
            p5.pc == Done && !p5.ok && Blob(p.job.key) in r5.files && Sidecar(p.job.key) !in r5.files
  {
  }

  /** A write whose sidecar cannot be renamed returns an error, and leaves the new blob
      with whatever sidecar was there. */
  lemma SidecarMayStayBehind(c: Config, r: Remote)
    requires c.posix && c.sidecars && r.files == map[] && !r.latch
    ensures exists es: seq<Event> ::
              var (r', p') := ProcRun(c, r, NewProc(Write("k", "", [], false)), es);
              p'.pc == Done && !p'.ok && Blob("k") in r'.files && Sidecar("k") !in r'.files
  {
    hide ProcStep;
    var ok, fail := Go(Ok, 0), Go(Fail, 0);
    var p := NewProc(Write("k", "", [], false));
    var s1 := ProcStep(c, r, p, ok);
    var s2 := ProcStep(c, s1.0, s1.1, ok);
    var s3 := ProcStep(c, s2.0, s2.1, ok);
    var s4 := ProcStep(c, s3.0, s3.1, ok);
    var s5 := ProcStep(c, s4.0, s4.1, ok);
    var s6 := ProcStep(c, s5.0, s5.1, ok);
    var s7 := ProcStep(c, s6.0, s6.1, fail);
    WriteToSidecar(c, r);
    SidecarWritten(c, s3.0, s3.1);
    SidecarFails(c, s5.0, s5.1);
    ProcRunThrough(c, [(r, p), s1, s2, s3, s4, s5, s6, s7], [ok, ok, ok, ok, ok, ok, fail]);
  }

  lemma {:induction false} ProcRunThrough(c: Config, states: seq<(Remote, Proc)>, es: seq<Event>)
    requires |states| == |es| + 1
    requires forall n :: 0 <= n < |es| ==> states[n + 1] == ProcStep(c, states[n].0, states[n].1, es[n])
    ensures ProcRun(c, states[0].0, states[0].1, es) == states[|es|]
  {
    hide ProcStep;
    if es != [] {
      var n := |es| - 1;
      ProcRunThrough(c, states[..n + 1], es[..n]);
    }
  }
}
