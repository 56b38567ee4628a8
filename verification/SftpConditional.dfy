/** Writers with IfNotExist on one key, interleaved with each other and with any calls
    on other keys (blob/sftpblob/sftpblob.go:575-597, 1047-1093). */
module SftpConditional {
  import opened Strings
  import opened SftpPaths
  import opened SftpFiles
  import opened SftpCommit
  import opened SftpRuns
  import opened SftpQuiet

  predicate IsConditional(p: Proc) {
    p.job.Write? && p.job.ifNotExist
  }

  /** What is known of a conditional writer from its own steps. */
  predicate WriterOk(c: Config, p: Proc)
    requires p.job.Write?
  {
    && (p.pc.Commit? && !p.pc.side ==> p.pc.stage == Stat || p.pc.stage == Link)
    && (p.pc.Commit? && p.pc.side ==> p.pc.stage == Posix || p.pc.stage == Unlink || p.pc.stage == Fallback)
    && (p.checked ==> p.attrs == SidecarOf(c, p))
  }

  function SidecarOf(c: Config, p: Proc): File
    requires p.job.Write?
  {
    Attrs(p.job.meta, c.hash(p.given))
  }

  /** A winner that returns no error has put its sidecar into place; one that does, or has
      not come to its end, has left the old one or removed it, as long as no answer got
      lost. */
  predicate FinalOk(c: Config, start: Files, files: Files, p: Proc, heard: bool)
    requires p.job.Write?
  {
    var sidecar := Sidecar(p.job.key);
    && (p.won && p.ok && c.sidecars ==> sidecar in files && files[sidecar] == SidecarOf(c, p))
    && (p.won && !p.ok && heard ==> Same(start, files, sidecar) || sidecar !in files)
  }

  /** A writer to which all answers were good: it is refused only by a blob that is
      there, and its sidecar not at all. */
  predicate GoodOk(files: Files, p: Proc) {
    && !p.cancelled && p.pc != UndoAttrs
    && (p.checked && !p.won && (p.pc == DropAttrs || p.pc == DropTemp || p.pc == Done) ==> Blob(p.job.key) in files)
    && (p.pc.Commit? && p.pc.side && p.pc.stage == Fallback ==> Sidecar(p.job.key) !in files)
    && (p.pc == Done && p.won ==> p.ok)
  }

  predicate WriterStep(c: Config, r: Remote, p: Proc, e: Event, r': Remote, p': Proc)
    requires p.job.Write? && p'.job == p.job
  {
    var blob, sidecar := Blob(p.job.key), Sidecar(p.job.key);
    && WriterOk(c, p')
    && (p.won ==> p'.won && p'.given == p.given)
    && (p.ok ==> p'.ok)
    // A blob that is there stays, and nobody wins any more.
    && (blob in r.files ==> Same(r.files, r'.files, blob) && p'.won == p.won)
    && (p'.won && !p.won ==> blob in r'.files && r'.files[blob] == Data(p'.given))
    // Who does not win, changes neither the blob nor the sidecar.
    && (!p'.won && !IsLost(e) ==> Same(r.files, r'.files, blob))
    && (!p.won || p.ok ==> Same(r.files, r'.files, sidecar))
    // Who has won, puts its sidecar into place, or leaves or removes the one there.
    && (p'.won && p'.ok && !p.ok && c.sidecars ==> sidecar in r'.files && r'.files[sidecar] == SidecarOf(c, p'))
    && (p.won && !p'.ok && !IsLost(e) ==> Same(r.files, r'.files, sidecar) || sidecar !in r'.files)
    && (IsGood(e) && GoodOk(r.files, p) ==> GoodOk(r'.files, p'))
  }

  predicate WriterReady(c: Config, r: Remote, p: Proc) {
    IsConditional(p) && ProcOk(c, r, p) && WonOk(c, p) && WriterOk(c, p)
  }

  lemma OpenWriter(c: Config, r: Remote, p: Proc, o: Outcome, n: nat)
    requires WriterReady(c, r, p) && p.pc == Idle
    ensures var (r', p') := OpenStep(r, p, o, n, Writing); WriterStep(c, r, p, Go(o, 0), r', p')
  {
    hide MD5Matches;
  }

  lemma ChunkWriter(c: Config, r: Remote, p: Proc, chunk: Bytes, ok: bool, n: nat)
    requires WriterReady(c, r, p) && p.pc == Writing
    ensures var (r', p') := ChunkStep(r, p, chunk, ok, n); WriterStep(c, r, p, Chunk(chunk, ok, n), r', p')
  {
    hide MD5Matches, Take;
  }

  lemma CloseWriter(c: Config, r: Remote, p: Proc, o: Outcome)
    requires WriterReady(c, r, p) && p.pc == Writing
    ensures var (r', p') := CloseStep(c, r, p, o); WriterStep(c, r, p, Go(o, 0), r', p')
  {
    hide MD5Matches;
  }

  lemma StageAttrsWriter(c: Config, r: Remote, p: Proc, o: Outcome)
    requires WriterReady(c, r, p) && p.pc == StageAttrs
    ensures var (r', p') := StageAttrsStep(r, p, o); WriterStep(c, r, p, Go(o, 0), r', p')
  {
    hide MD5Matches;
  }

  lemma EncodeAttrsWriter(c: Config, r: Remote, p: Proc, o: Outcome)
    requires WriterReady(c, r, p) && p.pc == EncodeAttrs
    ensures var (r', p') := EncodeAttrsStep(r, p, o); WriterStep(c, r, p, Go(o, 0), r', p')
  {
    hide MD5Matches;
  }

  lemma CloseAttrsWriter(c: Config, r: Remote, p: Proc, o: Outcome)
    requires WriterReady(c, r, p) && p.pc == CloseAttrs
    ensures var (r', p') := CloseAttrsStep(r, p, o); WriterStep(c, r, p, Go(o, 0), r', p')
  {
    hide MD5Matches;
  }

  lemma CommitBlobWriter(c: Config, r: Remote, p: Proc, o: Outcome)
    requires WriterReady(c, r, p) && p.pc.Commit? && !p.pc.side && !c.clobbers
    ensures var (r', p') := CommitBlobStep(c, r, p, p.pc.stage, o); WriterStep(c, r, p, Go(o, 0), r', p')
  {
    hide RenameStep, ProcOk;
    var src, dst := TempOf(p), Blob(p.job.key);
    CommitKnows(c, r, p);
    ConditionalStep(c, r, src, dst, p.pc.stage, o);
    RenameElsewhere(c, r, src, dst, p.pc.stage, o, Sidecar(p.job.key));
  }

  lemma CommitSidecarWriter(c: Config, r: Remote, p: Proc, o: Outcome)
    requires WriterReady(c, r, p) && p.pc.Commit? && p.pc.side
    ensures var (r', p') := CommitSidecarStep(c, r, p, p.pc.stage, o); WriterStep(c, r, p, Go(o, 0), r', p')
  {
    hide RenameStep, ProcOk;
    var src, dst := TempSidecarOf(p), Sidecar(p.job.key);
    CommitKnows(c, r, p);
    RenameFrame(c, r, src, dst, p.pc.stage, o);
    RenameElsewhere(c, r, src, dst, p.pc.stage, o, Blob(p.job.key));
    SideStage(c, r, src, dst, p.pc.stage, o);
    if p.pc.stage == Fallback ==> dst !in r.files {
      GoodRename(c, r, src, dst, p.pc.stage);
    }
  }

  lemma SideStage(c: Config, r: Remote, src: Path, dst: Path, stage: Stage, o: Outcome)
    requires stage == Posix || stage == Unlink || stage == Fallback
    ensures var next := RenameStep(c, r, src, dst, stage, o).1;
            next == Renamed || next == Refused || next == Unlink || next == Fallback
  {
  }

  lemma OtherWriter(c: Config, r: Remote, p: Proc, o: Outcome, n: nat)
    requires WriterReady(c, r, p) && (p.pc == DropAttrs || p.pc == DropTemp || p.pc == UndoAttrs || p.pc == Done)
    ensures var (r', p') := ProcStep(c, r, p, Go(o, n)); p'.job == p.job && WriterStep(c, r, p, Go(o, 0), r', p')
  {
    hide MD5Matches, RenameStep;
  }

  lemma ProcWriter(c: Config, r: Remote, p: Proc, e: Event)
    requires WriterReady(c, r, p) && !c.clobbers
    ensures var (r', p') := ProcStep(c, r, p, e); p'.job == p.job && WriterStep(c, r, p, e, r', p')
  {
    hide ChunkStep, CloseStep, OpenStep, CopyBytesStep, ReadAttrsStep, StageAttrsStep, EncodeAttrsStep, CloseAttrsStep;
    hide CommitBlobStep, CommitSidecarStep, Drop, Apply, MD5Matches;
    var (r', p') := ProcStep(c, r, p, e);
    ProcStepOk(c, r, p, e);
    match e
    case Cancel =>
    case Chunk(chunk, ok, n) => if p.pc == Writing { ChunkWriter(c, r, p, chunk, ok, n); }
    case Go(o, n) =>
      match p.pc
      case Idle => OpenWriter(c, r, p, o, n);
      case Writing => CloseWriter(c, r, p, o);
      case StageAttrs => StageAttrsWriter(c, r, p, o);
      case EncodeAttrs => EncodeAttrsWriter(c, r, p, o);
      case CloseAttrs => CloseAttrsWriter(c, r, p, o);
      case Commit(side, _) => if side { CommitSidecarWriter(c, r, p, o); } else { CommitBlobWriter(c, r, p, o); }
      case _ => OtherWriter(c, r, p, o, n);
  }

  // ---- all calls together ----

  /** Every call that is to change key k is a conditional write. */
  ghost predicate OnlyConditional(procs: seq<Proc>, k: string) {
    forall i :: 0 <= i < |procs| && procs[i].job.key == k ==> IsConditional(procs[i])
  }

  predicate Wins(p: Proc, k: string) {
    p.job.key == k && p.won
  }

  ghost predicate NoWinner(procs: seq<Proc>, k: string) {
    forall i :: 0 <= i < |procs| ==> !Wins(procs[i], k)
  }

  /** heard: no answer to a call on key k got lost so far. */
  ghost predicate Blobs(start: Files, s: State, k: string, heard: bool) {
    // At most one call wins, the blob is its own, and none was there before.
    && (forall i :: 0 <= i < |s.procs| && Wins(s.procs[i], k) ==>
          Blob(k) !in start && Blob(k) in s.remote.files && s.remote.files[Blob(k)] == Data(s.procs[i].given))
    && (forall i, j :: 0 <= i < j < |s.procs| && Wins(s.procs[i], k) ==> !Wins(s.procs[j], k))
    && (Blob(k) in start ==> Same(start, s.remote.files, Blob(k)))
    // As long as none has won, all is as it was.
    && (NoWinner(s.procs, k) ==> Same(start, s.remote.files, Sidecar(k)))
    && (NoWinner(s.procs, k) && heard ==> Same(start, s.remote.files, Blob(k)))
  }

  /** good: all answers to calls on key k were good so far, and none was cancelled. */
  ghost predicate Writers(c: Config, start: Files, s: State, k: string, heard: bool, good: bool) {
    forall i :: 0 <= i < |s.procs| && s.procs[i].job.key == k ==>
      WriterHas(c, start, s.remote.files, s.procs[i], heard, good)
  }

  predicate WriterHas(c: Config, start: Files, files: Files, p: Proc, heard: bool, good: bool) {
    && IsConditional(p)
    && WriterOk(c, p)
    && FinalOk(c, start, files, p, heard)
    && (good ==> GoodOk(files, p))
  }

  ghost predicate CondInv(c: Config, start: Files, s: State, k: string, heard: bool, good: bool) {
    TidyInv(c, start, s) && Writers(c, start, s, k, heard, good) && Blobs(start, s, k, heard)
  }

  lemma TidyGives(c: Config, start: Files, s: State, i: nat)
    requires TidyInv(c, start, s) && i < |s.procs|
    ensures ProcOk(c, s.remote, s.procs[i]) && WonOk(c, s.procs[i])
  {
    hide ProcOk, BlobsKnown, WonOk;
  }

  /** A step of a call on another key. */
  lemma OtherKeyWriters(c: Config, start: Files, s: State, i: nat, r': Remote, p': Proc, k: string, heard: bool, good: bool)
    requires i < |s.procs| && s.procs[i].job.key != k && p'.job == s.procs[i].job
    requires Same(s.remote.files, r'.files, Blob(k)) && Same(s.remote.files, r'.files, Sidecar(k))
    requires Writers(c, start, s, k, heard, good)
    ensures Writers(c, start, State(r', s.procs[i := p']), k, heard, good)
  {
    var t := State(r', s.procs[i := p']);
    forall j | 0 <= j < |t.procs| && t.procs[j].job.key == k
      ensures WriterHas(c, start, r'.files, t.procs[j], heard, good)
    {
      assert WriterHas(c, start, s.remote.files, s.procs[j], heard, good);
    }
  }

  lemma OtherKeyBlobs(start: Files, s: State, i: nat, r': Remote, p': Proc, k: string, heard: bool)
    requires i < |s.procs| && s.procs[i].job.key != k && p'.job == s.procs[i].job
    requires Same(s.remote.files, r'.files, Blob(k)) && Same(s.remote.files, r'.files, Sidecar(k))
    requires Blobs(start, s, k, heard)
    ensures Blobs(start, State(r', s.procs[i := p']), k, heard)
  {
    var t := State(r', s.procs[i := p']);
    assert forall j :: 0 <= j < |t.procs| ==> (Wins(t.procs[j], k) <==> Wins(s.procs[j], k));
    assert NoWinner(t.procs, k) ==> NoWinner(s.procs, k);
  }

  /** A step of a writer on key k, for itself... */
  lemma WriterKept(c: Config, start: Files, r: Remote, p: Proc, e: Event, r': Remote, p': Proc, heard: bool, good: bool)
    requires WriterHas(c, start, r.files, p, heard, good) && p'.job == p.job && WriterStep(c, r, p, e, r', p')
    requires !p.won ==> Same(start, r.files, Sidecar(p.job.key)) || Blob(p.job.key) in r.files
    requires p.ok ==> p.won
    ensures WriterHas(c, start, r'.files, p', heard && !IsLost(e), good && IsGood(e))
  {
    hide GoodOk;
  }

  /** ...and as another one on the key sees it. */
  lemma OtherWriterKept(c: Config, start: Files, r: Remote, p: Proc, e: Event, r': Remote, p': Proc, x: Proc,
                        heard: bool, good: bool)
    requires WriterHas(c, start, r.files, x, heard, good) && p'.job == p.job && p.job.Write? && x.job.key == p.job.key
    requires WriterStep(c, r, p, e, r', p') && !(x.won && p.won)
    requires x.won ==> Blob(x.job.key) in r.files
    requires x.pc.Commit? && x.pc.side ==> x.won
    requires x.ok ==> x.won
    ensures WriterHas(c, start, r'.files, x, heard && !IsLost(e), good && IsGood(e))
  {
  }

  lemma WritersStep(c: Config, start: Files, s: State, i: nat, e: Event, r': Remote, p': Proc, k: string,
                    heard: bool, good: bool)
    requires TidyInv(c, start, s) && Writers(c, start, s, k, heard, good) && Blobs(start, s, k, heard)
    requires i < |s.procs| && s.procs[i].job.key == k && IsConditional(s.procs[i])
    requires p'.job == s.procs[i].job && WriterStep(c, s.remote, s.procs[i], e, r', p')
    ensures Writers(c, start, State(r', s.procs[i := p']), k, heard && !IsLost(e), good && IsGood(e))
  {
    hide TidyInv, WriterStep, WriterHas;
    var t := State(r', s.procs[i := p']);
    forall j | 0 <= j < |t.procs| && t.procs[j].job.key == k
      ensures WriterHas(c, start, r'.files, t.procs[j], heard && !IsLost(e), good && IsGood(e))
    {
      assert WriterHas(c, start, s.remote.files, s.procs[j], heard, good);
      assert s.procs[j].won ==> Wins(s.procs[j], k);
      assert s.procs[i].won ==> Wins(s.procs[i], k);
      if j == i {
        NoWinnerYet(start, s, i, k, heard);
        TidyGives(c, start, s, i);
        WriterKept(c, start, s.remote, s.procs[i], e, r', p', heard, good);
      } else {
        TidyGives(c, start, s, j);
        WriterIs(c, start, s, j, k, heard, good);
        OtherWriterKept(c, start, s.remote, s.procs[i], e, r', p', s.procs[j], heard, good);
      }
    }
  }

  /** Either someone has won, and then there is a blob, or the sidecar is the old one. */
  lemma NoWinnerYet(start: Files, s: State, i: nat, k: string, heard: bool)
    requires Blobs(start, s, k, heard) && i < |s.procs|
    ensures !s.procs[i].won ==> Same(start, s.remote.files, Sidecar(k)) || Blob(k) in s.remote.files
  {
  }

  lemma BlobsStep(c: Config, start: Files, s: State, i: nat, e: Event, r': Remote, p': Proc, k: string, heard: bool)
    requires i < |s.procs| && s.procs[i].job.key == k && IsConditional(s.procs[i])
    requires p'.job == s.procs[i].job && WriterStep(c, s.remote, s.procs[i], e, r', p')
    requires Blobs(start, s, k, heard)
    ensures Blobs(start, State(r', s.procs[i := p']), k, heard && !IsLost(e))
  {
    hide WriterOk, GoodOk;
    var p, t := s.procs[i], State(r', s.procs[i := p']);
    assert forall j :: 0 <= j < |s.procs| && Wins(s.procs[j], k) ==> Wins(t.procs[j], k);
    assert NoWinner(t.procs, k) ==> NoWinner(s.procs, k);
    assert NoWinner(t.procs, k) ==> !Wins(t.procs[i], k);
  }

  predicate OnKey(procs: seq<Proc>, i: nat, k: string) {
    i < |procs| && procs[i].job.key == k
  }

  lemma CondStep(c: Config, start: Files, s: State, i: nat, e: Event, k: string, heard: bool, good: bool)
    requires CondInv(c, start, s, k, heard, good) && !c.clobbers
    ensures CondInv(c, start, Step(c, s, i, e), k,
                    heard && !(OnKey(s.procs, i, k) && IsLost(e)), good && (OnKey(s.procs, i, k) ==> IsGood(e)))
  {
    hide TidyInv, ProcStep, Writers, Blobs, Step;
    TidyInvStep(c, start, s, i, e);
    if i < |s.procs| {
      var p := s.procs[i];
      var (r', p') := ProcStep(c, s.remote, p, e);
      StepIs(c, s, i, e);
      TidyGives(c, start, s, i);
      ProcStepOk(c, s.remote, p, e);
      hide StepOk, ProcOk, WonOk;
      if p.job.key == k {
        WriterIs(c, start, s, i, k, heard, good);
        ProcWriter(c, s.remote, p, e);
        WritersStep(c, start, s, i, e, r', p', k, heard, good);
        BlobsStep(c, start, s, i, e, r', p', k, heard);
      } else {
        OtherKeyKept(c, s.remote, p, r', p', k);
        OtherKeyWriters(c, start, s, i, r', p', k, heard, good);
        OtherKeyBlobs(start, s, i, r', p', k, heard);
      }
    } else {
      StepNone(c, s, i, e);
    }
  }

  lemma OtherKeyKept(c: Config, r: Remote, p: Proc, r': Remote, p': Proc, k: string)
    requires StepOk(c, r, p, r', p') && p.job.key != k
    ensures p'.job == p.job && Same(r.files, r'.files, Blob(k)) && Same(r.files, r'.files, Sidecar(k))
  {
    hide ProcOk, BlobOk, ReadOk;
  }

  lemma StepIs(c: Config, s: State, i: nat, e: Event)
    requires i < |s.procs|
    ensures var (r', p') := ProcStep(c, s.remote, s.procs[i], e); Step(c, s, i, e) == State(r', s.procs[i := p'])
  {
    hide ProcStep;
  }

  lemma StepNone(c: Config, s: State, i: nat, e: Event)
    requires i >= |s.procs|
    ensures Step(c, s, i, e) == s
  {
  }

  lemma WriterIs(c: Config, start: Files, s: State, i: nat, k: string, heard: bool, good: bool)
    requires Writers(c, start, s, k, heard, good) && i < |s.procs| && s.procs[i].job.key == k
    ensures IsConditional(s.procs[i]) && WriterOk(c, s.procs[i])
  {
    assert WriterHas(c, start, s.remote.files, s.procs[i], heard, good);
  }

  lemma CondStart(c: Config, s: State, k: string)
    requires IsStart(s) && OnlyConditional(s.procs, k)
    ensures CondInv(c, s.remote.files, s, k, true, true)
  {
    TidyRun(c, s, []);
    hide TidyInv;
    assert forall i :: 0 <= i < |s.procs| ==> s.procs[i] == NewProc(s.procs[i].job);
    forall i | 0 <= i < |s.procs| && s.procs[i].job.key == k
      ensures WriterHas(c, s.remote.files, s.remote.files, s.procs[i], true, true)
    {
      assert IsConditional(s.procs[i]);
    }
  }

  /** No answer to a call on key k got lost. */
  predicate Heard(procs: seq<Proc>, es: seq<(nat, Event)>, k: string) {
    forall n :: 0 <= n < |es| && OnKey(procs, es[n].0, k) ==> !IsLost(es[n].1)
  }

  /** All answers to calls on key k were good ones, and none of them was cancelled. */
  predicate AllGood(procs: seq<Proc>, es: seq<(nat, Event)>, k: string) {
    forall n :: 0 <= n < |es| && OnKey(procs, es[n].0, k) ==> IsGood(es[n].1)
  }

  lemma {:induction false} CondRun(c: Config, s: State, es: seq<(nat, Event)>, k: string)
    requires IsStart(s) && OnlyConditional(s.procs, k) && !c.clobbers
    ensures CondInv(c, s.remote.files, Run(c, s, es), k, Heard(s.procs, es, k), AllGood(s.procs, es, k))
  {
    if es == [] {
      CondStart(c, s, k);
    } else {
      hide CondInv, IsStart, Step, OnlyConditional, IsLost, IsGood, OnKey;
      var n := |es| - 1;
      CondRun(c, s, es[..n], k);
      SameKeys(c, s, es[..n], es[n].0, k);
      EventsSnoc(s.procs, es, k);
      CondStep(c, s.remote.files, Run(c, s, es[..n]), es[n].0, es[n].1, k,
               Heard(s.procs, es[..n], k), AllGood(s.procs, es[..n], k));
    }
  }

  lemma SameKeys(c: Config, s: State, es: seq<(nat, Event)>, i: nat, k: string)
    requires IsStart(s)
    ensures OnKey(Run(c, s, es).procs, i, k) <==> OnKey(s.procs, i, k)
  {
    hide Run, IsStart;
    RunProcs(c, s, es);
    if i < |s.procs| {
      RunJobs(c, s, es, i);
    }
  }

  lemma EventsSnoc(procs: seq<Proc>, es: seq<(nat, Event)>, k: string)
    requires es != []
    ensures var front, last := es[..|es| - 1], es[|es| - 1];
            && (Heard(procs, es, k) <==> Heard(procs, front, k) && !(OnKey(procs, last.0, k) && IsLost(last.1)))
            && (AllGood(procs, es, k) <==> AllGood(procs, front, k) && (OnKey(procs, last.0, k) ==> IsGood(last.1)))
  {
    hide OnKey, IsLost, IsGood;
    var front := es[..|es| - 1];
    assert forall n :: 0 <= n < |front| ==> front[n] == es[n];
  }

  // ---- what follows ----

  lemma StepSame(c: Config, start: Files, s: State, i: nat, e: Event, k: string, heard: bool, good: bool)
    requires CondInv(c, start, s, k, heard, good) && !c.clobbers
    ensures Blob(k) in s.remote.files ==> Same(s.remote.files, Step(c, s, i, e).remote.files, Blob(k))
    ensures (i < |s.procs| && s.procs[i].job.key == k && !Step(c, s, i, e).procs[i].won && !IsLost(e) ==>
               && Same(s.remote.files, Step(c, s, i, e).remote.files, Blob(k))
               && Same(s.remote.files, Step(c, s, i, e).remote.files, Sidecar(k)))
  {
    hide TidyInv, ProcStep, Writers, Blobs, Step;
    if i < |s.procs| {
      var p := s.procs[i];
      StepIs(c, s, i, e);
      TidyGives(c, start, s, i);
      var (r', p') := ProcStep(c, s.remote, p, e);
      if p.job.key == k {
        WriterIs(c, start, s, i, k, heard, good);
        ProcWriter(c, s.remote, p, e);
      } else {
        ProcStepOk(c, s.remote, p, e);
        assert Same(s.remote.files, r'.files, Blob(k));
      }
    } else {
      StepNone(c, s, i, e);
    }
  }

  /** Once a blob is at key k, whatever the calls do it stays and does not change. */
  lemma {:induction false} OncePresentItStays(c: Config, s: State, es: seq<(nat, Event)>, ds: seq<(nat, Event)>, k: string)
    requires IsStart(s) && OnlyConditional(s.procs, k) && !c.clobbers
    requires Blob(k) in Run(c, s, es).remote.files
    ensures Same(Run(c, s, es).remote.files, Run(c, s, es + ds).remote.files, Blob(k))
  {
    hide IsStart, OnlyConditional, Step, CondInv;
    if ds == [] {
      assert es + ds == es;
    } else {
      var n := |ds| - 1;
      var sofar := es + ds[..n];
      OncePresentItStays(c, s, es, ds[..n], k);
      CondRun(c, s, sofar, k);
      StepSame(c, s.remote.files, Run(c, s, sofar), ds[n].0, ds[n].1, k, Heard(s.procs, sofar, k), AllGood(s.procs, sofar, k));
      assert (es + ds)[..|es + ds| - 1] == es + ds[..n];
      assert (es + ds)[|es + ds| - 1] == ds[n];
    }
  }

  /** Of any number of conditional writes of one key at most one succeeds, and none
      does if the blob was there before. */
  lemma AtMostOneSucceeds(c: Config, s: State, es: seq<(nat, Event)>, k: string, i: nat, j: nat)
    requires IsStart(s) && OnlyConditional(s.procs, k) && !c.clobbers
    requires var t := Run(c, s, es);
             i < j < |t.procs| && t.procs[i].job.key == t.procs[j].job.key == k
    ensures var t := Run(c, s, es);
            && !(t.procs[i].ok && t.procs[j].ok)
            && (Blob(k) in s.remote.files ==> !t.procs[i].ok && !t.procs[j].ok)
  {
    hide IsStart, OnlyConditional, Run, Writers, Heard, AllGood;
    var t := Run(c, s, es);
    CondRun(c, s, es, k);
    OkWins(c, s, es, k, i);
    OkWins(c, s, es, k, j);
    assert Blobs(s.remote.files, t, k, Heard(s.procs, es, k));
  }

  lemma OkWins(c: Config, s: State, es: seq<(nat, Event)>, k: string, i: nat)
    requires IsStart(s) && OnlyConditional(s.procs, k) && !c.clobbers
    requires i < |Run(c, s, es).procs| && Run(c, s, es).procs[i].job.key == k
    ensures Run(c, s, es).procs[i].ok ==> Wins(Run(c, s, es).procs[i], k)
  {
    hide IsStart, OnlyConditional, Run, TidyInv, Blobs, Writers, Heard, AllGood;
    CondRun(c, s, es, k);
    TidyGives(c, s.remote.files, Run(c, s, es), i);
    WriterIs(c, s.remote.files, Run(c, s, es), i, k, Heard(s.procs, es, k), AllGood(s.procs, es, k));
  }

  /** A step of a writer that has not won touches neither the blob nor its sidecar,
      unless the answer that it has won got lost. */
  lemma LosersTouchNothing(c: Config, s: State, es: seq<(nat, Event)>, i: nat, e: Event, k: string)
    requires IsStart(s) && OnlyConditional(s.procs, k) && !c.clobbers && !IsLost(e)
    requires var t := Run(c, s, es);
             i < |t.procs| && t.procs[i].job.key == k && !Step(c, t, i, e).procs[i].won
    ensures var t := Run(c, s, es);
            var t' := Step(c, t, i, e);
            Same(t.remote.files, t'.remote.files, Blob(k)) && Same(t.remote.files, t'.remote.files, Sidecar(k))
  {
    hide IsStart, OnlyConditional, Run, Step, CondInv, Heard, AllGood;
    CondRun(c, s, es, k);
    StepSame(c, s.remote.files, Run(c, s, es), i, e, k, Heard(s.procs, es, k), AllGood(s.procs, es, k));
  }

  /** All calls on key k have returned, or have not begun. */
  ghost predicate AtRest(procs: seq<Proc>, k: string) {
    forall i :: 0 <= i < |procs| && procs[i].job.key == k ==> procs[i].pc == Done || procs[i].pc == Idle
  }

  /** The one call whose blob was renamed into place.  It returns no error exactly if its
      sidecar was, too; else there is the old sidecar, or none. */
  ghost predicate IsWinner(c: Config, start: Files, t: State, k: string, i: nat) {
    && i < |t.procs| && IsConditional(t.procs[i]) && Wins(t.procs[i], k)
    && (forall j :: 0 <= j < |t.procs| && j != i && t.procs[j].job.key == k ==> !t.procs[j].ok && !t.procs[j].won)
    && Blob(k) !in start
    && Blob(k) in t.remote.files && t.remote.files[Blob(k)] == Data(t.procs[i].given)
    && (t.procs[i].ok && c.sidecars ==>
          Sidecar(k) in t.remote.files && t.remote.files[Sidecar(k)] == SidecarOf(c, t.procs[i]))
    && (!t.procs[i].ok ==> c.sidecars && (Same(start, t.remote.files, Sidecar(k)) || Sidecar(k) !in t.remote.files))
  }

  ghost predicate NoneSucceeded(start: Files, t: State, k: string) {
    && (forall i :: 0 <= i < |t.procs| && t.procs[i].job.key == k ==> !t.procs[i].ok)
    && Same(start, t.remote.files, Blob(k)) && Same(start, t.remote.files, Sidecar(k))
  }

  /** When the calls on key k are at rest, and no answer to them got lost, then either
      one of them has won, or none has, and blob and sidecar are as they were. */
  lemma WinnerTakesAll(c: Config, s: State, es: seq<(nat, Event)>, k: string)
    requires IsStart(s) && OnlyConditional(s.procs, k) && !c.clobbers
    requires Heard(s.procs, es, k) && AtRest(Run(c, s, es).procs, k)
    ensures var t := Run(c, s, es);
            (exists i: nat :: IsWinner(c, s.remote.files, t, k, i)) || NoneSucceeded(s.remote.files, t, k)
  {
    hide IsStart, OnlyConditional, Run, WonOk, ProcOk, Heard, AllGood;
    var start, t := s.remote.files, Run(c, s, es);
    CondRun(c, s, es, k);
    forall i | 0 <= i < |t.procs| && t.procs[i].job.key == k
      ensures t.procs[i].ok ==> Wins(t.procs[i], k)
    {
      OkWins(c, s, es, k, i);
    }
    hide TidyInv;
    assert Blobs(start, t, k, true);
    if NoWinner(t.procs, k) {
      assert NoneSucceeded(start, t, k);
    } else {
      var i :| 0 <= i < |t.procs| && Wins(t.procs[i], k);
      WinnerDone(c, start, t, k, i, AllGood(s.procs, es, k));
      assert IsWinner(c, start, t, k, i);
    }
  }

  lemma WinnerDone(c: Config, start: Files, t: State, k: string, i: nat, good: bool)
    requires CondInv(c, start, t, k, true, good) && i < |t.procs| && Wins(t.procs[i], k) && AtRest(t.procs, k)
    ensures t.procs[i].job.Write? && FinalOk(c, start, t.remote.files, t.procs[i], true)
    ensures IsConditional(t.procs[i]) && (!t.procs[i].ok ==> c.sidecars)
    ensures good ==> t.procs[i].ok
  {
    hide TidyInv, Blobs;
    assert WriterHas(c, start, t.remote.files, t.procs[i], true, good);
    TidyGives(c, start, t, i);
  }

  /** And if moreover all answers to them were good, and a writer has come to commit, then
      one has won and returned no error, unless the blob was there from the start. */
  lemma SomeoneSucceeds(c: Config, s: State, es: seq<(nat, Event)>, k: string, i: nat)
    requires IsStart(s) && OnlyConditional(s.procs, k) && !c.clobbers && Blob(k) !in s.remote.files
    requires AllGood(s.procs, es, k) && AtRest(Run(c, s, es).procs, k)
    requires var t := Run(c, s, es);
             i < |t.procs| && t.procs[i].job.key == k && t.procs[i].checked
    ensures exists j: nat :: IsWinner(c, s.remote.files, Run(c, s, es), k, j) && Run(c, s, es).procs[j].ok
  {
    hide IsStart, OnlyConditional, Run;
    var start, t := s.remote.files, Run(c, s, es);
    assert Heard(s.procs, es, k);
    CondRun(c, s, es, k);
    WinnerTakesAll(c, s, es, k);
    TidyGives(c, start, t, i);
    hide TidyInv, Heard, AllGood;
    assert WriterHas(c, start, t.remote.files, t.procs[i], true, true);
    CameToCommit(c, start, t, k, i);
    assert !NoneSucceeded(start, t, k);
    var j: nat :| IsWinner(c, start, t, k, j);
    WinnerDone(c, start, t, k, j, true);
  }

  lemma CameToCommit(c: Config, start: Files, t: State, k: string, i: nat)
    requires CondInv(c, start, t, k, true, true) && i < |t.procs| && t.procs[i].job.key == k && t.procs[i].checked
    requires AtRest(t.procs, k)
    ensures Blob(k) in t.remote.files
  {
    hide TidyInv;
    assert WriterHas(c, start, t.remote.files, t.procs[i], true, true);
    TidyGives(c, start, t, i);
  }

  /** A writer of nothing that has looked and not found the blob. */
  function Looked(c: Config, tag: nat): Proc {
    Proc(Write("k", "", [], true), Commit(false, Link), true, tag, [], [], Attrs("", c.hash([])),
         false, false, true, false, false)
  }

  lemma Looks(c: Config, r: Remote, p: Proc)
    requires !c.sidecars && p == NewProc(Write("k", "", [], true))
    requires Temp("k", r.clock) !in r.files && Blob("k") !in r.files
    ensures var (r1, p1) := ProcStep(c, r, p, Go(Ok, 0));
            var (r2, p2) := ProcStep(c, r1, p1, Go(Ok, 0));
            var (r3, p3) := ProcStep(c, r2, p2, Go(Ok, 0));
            p3 == Looked(c, r.clock) && r3.clock == r.clock + 1 && r3.files == r.files[Temp("k", r.clock) := Data([])]
  {
  }

  lemma Links(c: Config, r: Remote, tag: nat)
    requires c.clobbers && !c.sidecars && Temp("k", tag) in r.files
    ensures var (r', p') := ProcStep(c, r, Looked(c, tag), Go(Ok, 0));
            p'.ok && r'.files == Move(r.files, Temp("k", tag), Blob("k"))
  {
  }

  /** Where a plain rename replaces its destination, the look beforehand does not help:
      two writers that both looked in time both succeed. */
  lemma ClobberingLetsTwoSucceed(c: Config)
    requires c.clobbers && !c.sidecars
    ensures exists s: State, es: seq<(nat, Event)> ::
              && IsStart(s) && OnlyConditional(s.procs, "k") && |Run(c, s, es).procs| == 2
              && Run(c, s, es).procs[0].ok && Run(c, s, es).procs[1].ok
  {
    hide ProcStep;
    var p, go := NewProc(Write("k", "", [], true)), Go(Ok, 0);
    var r := Remote(map[], false, 0);
    var (r1, p1) := ProcStep(c, r, p, go);
    var (r2, p2) := ProcStep(c, r1, p1, go);
    var (r3, p3) := ProcStep(c, r2, p2, go);
    Looks(c, r, p);
    var (r4, q4) := ProcStep(c, r3, p, go);
    var (r5, q5) := ProcStep(c, r4, q4, go);
    var (r6, q6) := ProcStep(c, r5, q5, go);
    Looks(c, r3, p);
    var (r7, p7) := ProcStep(c, r6, p3, go);
    Links(c, r6, 0);
    var (r8, q8) := ProcStep(c, r7, q6, go);
    Links(c, r7, 1);
    var es: seq<(nat, Event)> := [(0, go), (0, go), (0, go), (1, go), (1, go), (1, go), (0, go), (1, go)];
    var states := [State(r, [p, p]), State(r1, [p1, p]), State(r2, [p2, p]), State(r3, [p3, p]),
                   State(r4, [p3, q4]), State(r5, [p3, q5]), State(r6, [p3, q6]), State(r7, [p7, q6]), State(r8, [p7, q8])];
    RunThrough(c, states, es);
    assert OnlyConditional(states[0].procs, "k");
  }

  lemma {:induction false} RunThrough(c: Config, states: seq<State>, es: seq<(nat, Event)>)
    requires |states| == |es| + 1
    requires forall n :: 0 <= n < |es| ==> states[n + 1] == Step(c, states[n], es[n].0, es[n].1)
    ensures Run(c, states[0], es) == states[|es|]
  {
    hide Step;
    if es != [] {
      var n := |es| - 1;
      RunThrough(c, states[..n + 1], es[..n]);
    }
  }
}
