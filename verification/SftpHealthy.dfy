/** When nothing fails: a call by itself succeeds exactly if it should
    (blob/sftpblob/sftpblob.go:582-619, 967-1206). */
module SftpHealthy {
  import opened Strings
  import opened SftpPaths
  import opened SftpFiles
  import opened SftpCommit
  import opened SftpRuns
  import opened SftpQuiet
  import opened SftpSequential

  /** A write whose MD5 is the one asked for, to a free key if it is conditional; a copy
      of a blob whose sidecar, if any, can be read; a delete of a blob. */
  predicate Should(c: Config, before: Files, j: Job, given: Bytes) {
    match j
    case Write(key, _, _, ifNotExist) => MD5Matches(c, j, given) && (ifNotExist ==> Blob(key) !in before)
    case Copy(_, src) =>
      && Blob(src) in before && before[Blob(src)].Data?
      && (c.sidecars && Sidecar(src) in before ==> before[Sidecar(src)].Attrs?)
    case Delete(key) => Blob(key) in before
  }

  predicate Fresh(r: Remote) {
    forall q :: q in r.files && IsTemp(q) ==> q.tag < r.clock
  }

  /** Where a call stands to which all answers were good. */
  predicate Healthy(c: Config, before: Files, r: Remote, p: Proc, good: bool) {
    good ==>
      && !p.failed && !p.cancelled && p.pc != UndoAttrs
      && (p.job.Write? && p.job.ifNotExist && !p.won ==> Same(before, r.files, Blob(p.job.key)))
      && (p.pc == DropAttrs || p.pc == DropTemp || (p.pc == Done && !p.ok) ==> !Should(c, before, p.job, p.given))
      && (p.ok || p.won || p.pc == RemoveSidecar ==> Should(c, before, p.job, p.given))
      && (p.pc == CopyTemp ==> r.files == before && Fresh(r))
      && (p.pc == Idle ==> r.files == before && Fresh(r))
      && (p.job.Copy? && (IsStaging(p.pc) || (p.pc.Commit? && !p.pc.side)) ==> Should(c, before, p.job, p.given))
      && (p.pc.Commit? ==> StageRight(p, r.files))
      && (!p.job.Delete? && !p.won && !p.pc.Commit? ==> Same(before, r.files, Blob(p.job.key)))
      && (p.job.Delete? && p.pc == Done && !p.ok ==> r.files == before)
      && (p.job.Delete? && p.ok ==> Sidecar(p.job.key) !in r.files)
  }

  /** A plain rename is not tried before the destination is known to be free. */
  predicate StageRight(p: Proc, files: Files)
    requires p.pc.Commit?
  {
    var dst := if p.pc.side then Sidecar(p.job.key) else Blob(p.job.key);
    && (p.pc.stage == Link || p.pc.stage == Fallback ==> dst !in files)
    && (p.pc.stage == Stat || p.pc.stage == Link <==> !p.pc.side && p.job.Write? && p.job.ifNotExist)
  }

  predicate Setting(c: Config, before: Files, r: Remote, p: Proc, heard: bool, good: bool) {
    SeqReady(c, before, r, p, heard) && Healthy(c, before, r, p, good)
  }

  lemma OpenHealthy(c: Config, before: Files, r: Remote, p: Proc, heard: bool, good: bool, o: Outcome, n: nat, next: Pc)
    requires Setting(c, before, r, p, heard, good)
    requires (p.pc == Idle && p.job.Write? && next == Writing) || (p.pc == CopyTemp && next == CopyBytes)
    ensures var (r', p') := OpenStep(r, p, o, n, next); Healthy(c, before, r', p', good && o == Ok)
  {
    hide MD5Matches, AttrsAt, Should;
    assert TempOf(p.(tag := r.clock + n)).tag >= r.clock;
  }

  lemma ChunkHealthy(c: Config, before: Files, r: Remote, p: Proc, heard: bool, good: bool, chunk: Bytes, ok: bool, n: nat)
    requires Setting(c, before, r, p, heard, good) && p.pc == Writing
    ensures var (r', p') := ChunkStep(r, p, chunk, ok, n); Healthy(c, before, r', p', good && ok)
  {
    hide MD5Matches, Take, AttrsAt, Fresh;
  }

  lemma CloseHealthy(c: Config, before: Files, r: Remote, p: Proc, heard: bool, good: bool, o: Outcome)
    requires Setting(c, before, r, p, heard, good) && p.pc == Writing
    ensures var (r', p') := CloseStep(c, r, p, o); Healthy(c, before, r', p', good && o == Ok)
  {
    hide MD5Matches, AttrsAt, Fresh;
  }

  lemma CopyOpenHealthy(c: Config, before: Files, r: Remote, p: Proc, heard: bool, good: bool, o: Outcome)
    requires Setting(c, before, r, p, heard, good) && p.pc == Idle && p.job.Copy?
    ensures var (r', p') := CopyOpenStep(r, p, o); Healthy(c, before, r', p', good && o == Ok)
  {
    hide AttrsAt, Fresh;
  }

  lemma CopyBytesHealthy(c: Config, before: Files, r: Remote, p: Proc, heard: bool, good: bool, o: Outcome, n: nat)
    requires Setting(c, before, r, p, heard, good) && p.pc == CopyBytes
    ensures var (r', p') := CopyBytesStep(c, r, p, o, n); Healthy(c, before, r', p', good && o == Ok)
  {
    hide MD5Matches, Take, AttrsAt, Fresh;
  }

  lemma ReadAttrsHealthy(c: Config, before: Files, r: Remote, p: Proc, heard: bool, good: bool, o: Outcome)
    requires Setting(c, before, r, p, heard, good) && p.pc == CopyAttrs && Same(before, r.files, Sidecar(p.job.src))
    ensures var (r', p') := ReadAttrsStep(r, p, o); Healthy(c, before, r', p', good && o == Ok)
  {
    hide MD5Matches, AttrsAt, Fresh;
  }

  lemma StageAttrsHealthy(c: Config, before: Files, r: Remote, p: Proc, heard: bool, good: bool, o: Outcome)
    requires Setting(c, before, r, p, heard, good) && p.pc == StageAttrs
    ensures var (r', p') := StageAttrsStep(r, p, o); Healthy(c, before, r', p', good && o == Ok)
  {
    hide MD5Matches, AttrsAt, Fresh;
  }

  lemma EncodeAttrsHealthy(c: Config, before: Files, r: Remote, p: Proc, heard: bool, good: bool, o: Outcome)
    requires Setting(c, before, r, p, heard, good) && p.pc == EncodeAttrs
    ensures var (r', p') := EncodeAttrsStep(r, p, o); Healthy(c, before, r', p', good && o == Ok)
  {
    hide MD5Matches, AttrsAt, Fresh;
  }

  lemma CloseAttrsHealthy(c: Config, before: Files, r: Remote, p: Proc, heard: bool, good: bool, o: Outcome)
    requires Setting(c, before, r, p, heard, good) && p.pc == CloseAttrs
    ensures var (r', p') := CloseAttrsStep(r, p, o); Healthy(c, before, r', p', good && o == Ok)
  {
    hide MD5Matches, AttrsAt, Fresh;
  }

  lemma DeleteHealthy(c: Config, before: Files, r: Remote, p: Proc, heard: bool, good: bool, o: Outcome)
    requires Setting(c, before, r, p, heard, good) && p.job.Delete? && (p.pc == Idle || p.pc == RemoveSidecar)
    ensures var (r', p') := if p.pc == Idle then DeleteStep(r, p, o) else RemoveSidecarStep(r, p, o);
            Healthy(c, before, r', p', good && o == Ok)
  {
    hide AttrsAt, Fresh;
  }

  lemma OtherHealthy(c: Config, before: Files, r: Remote, p: Proc, heard: bool, good: bool, o: Outcome, n: nat)
    requires Setting(c, before, r, p, heard, good)
    requires p.pc == DropAttrs || p.pc == DropTemp || p.pc == UndoAttrs || p.pc == Done
    ensures var (r', p') := ProcStep(c, r, p, Go(o, n)); Healthy(c, before, r', p', good && o == Ok)
  {
    hide MD5Matches, RenameStep, AttrsAt, Fresh, Should;
  }

  /** A call that renames its blob has passed its checks. */
  lemma CheckedHere(c: Config, before: Files, r: Remote, p: Proc, heard: bool, good: bool)
    requires Setting(c, before, r, p, heard, good) && p.pc.Commit? && !p.pc.side
    ensures !p.won && !p.ok && !p.job.Delete?
    ensures p.job.Write? ==> MD5Matches(c, p.job, p.given)
  {
    hide MD5Matches, Progress;
  }

  lemma CommitBlobHealthy(c: Config, before: Files, r: Remote, p: Proc, heard: bool, good: bool, o: Outcome)
    requires Setting(c, before, r, p, heard, good) && p.pc.Commit? && !p.pc.side
    ensures var (r', p') := CommitBlobStep(c, r, p, p.pc.stage, o); Healthy(c, before, r', p', good && o == Ok)
  {
    hide RenameStep, MD5Matches, Fresh, ProcOk, Progress, WonOk;
    var src, dst := TempOf(p), Blob(p.job.key);
    CheckedHere(c, before, r, p, heard, good);
    CommitKnows(c, r, p);
    if good {
      GoodRename(c, r, src, dst, p.pc.stage);
    }
  }

  lemma CommitSidecarHealthy(c: Config, before: Files, r: Remote, p: Proc, heard: bool, good: bool, o: Outcome)
    requires Setting(c, before, r, p, heard, good) && p.pc.Commit? && p.pc.side
    ensures var (r', p') := CommitSidecarStep(c, r, p, p.pc.stage, o); Healthy(c, before, r', p', good && o == Ok)
  {
    hide RenameStep, MD5Matches, AttrsAt, Fresh;
    var src, dst := TempSidecarOf(p), Sidecar(p.job.key);
    CommitKnows(c, r, p);
    if good {
      GoodRename(c, r, src, dst, p.pc.stage);
    }
  }

  lemma ProcHealthy(c: Config, before: Files, r: Remote, p: Proc, heard: bool, good: bool, e: Event)
    requires Setting(c, before, r, p, heard, good)
    requires p.job.Copy? && p.job.src != p.job.key ==> Same(before, r.files, Sidecar(p.job.src))
    ensures var (r', p') := ProcStep(c, r, p, e); Healthy(c, before, r', p', good && IsGood(e))
  {
    hide ChunkStep, CloseStep, OpenStep, CopyBytesStep, ReadAttrsStep, StageAttrsStep, EncodeAttrsStep, CloseAttrsStep;
    hide Fresh, Should;
    hide CommitBlobStep, CommitSidecarStep, DeleteStep, RemoveSidecarStep, CopyOpenStep, Drop, Apply, MD5Matches;
    match e
    case Cancel =>
    case Chunk(chunk, ok, n) => if p.pc == Writing { ChunkHealthy(c, before, r, p, heard, good, chunk, ok, n); }
    case Go(o, n) =>
      match p.pc
      case Idle =>
        if p.job.Write? { OpenHealthy(c, before, r, p, heard, good, o, n, Writing); }
        else if p.job.Copy? { CopyOpenHealthy(c, before, r, p, heard, good, o); }
        else { DeleteHealthy(c, before, r, p, heard, good, o); }
      case CopyTemp => OpenHealthy(c, before, r, p, heard, good, o, n, CopyBytes);
      case Writing => CloseHealthy(c, before, r, p, heard, good, o);
      case CopyBytes => CopyBytesHealthy(c, before, r, p, heard, good, o, n);
      case CopyAttrs => ReadAttrsHealthy(c, before, r, p, heard, good, o);
      case StageAttrs => StageAttrsHealthy(c, before, r, p, heard, good, o);
      case EncodeAttrs => EncodeAttrsHealthy(c, before, r, p, heard, good, o);
      case CloseAttrs => CloseAttrsHealthy(c, before, r, p, heard, good, o);
      case Commit(side, _) =>
        if side { CommitSidecarHealthy(c, before, r, p, heard, good, o); } else { CommitBlobHealthy(c, before, r, p, heard, good, o); }
      case RemoveSidecar => DeleteHealthy(c, before, r, p, heard, good, o);
      case _ => OtherHealthy(c, before, r, p, heard, good, o, n);
  }

  /** All answers are good ones, and nobody cancels. */
  predicate AllGood(es: seq<Event>) {
    forall n :: 0 <= n < |es| ==> IsGood(es[n])
  }

  lemma GoodSnoc(es: seq<Event>)
    requires es != []
    ensures AllGood(es) <==> AllGood(es[..|es| - 1]) && IsGood(es[|es| - 1])
  {
    hide IsGood;
  }

  lemma {:induction false} HealthyRun(c: Config, r: Remote, j: Job, es: seq<Event>)
    requires Fresh(r) && forall k :: Blob(k) in r.files ==> r.files[Blob(k)].Data?
    ensures var (r', p') := ProcRun(c, r, NewProc(j), es); Healthy(c, r.files, r', p', AllGood(es))
  {
    if es != [] {
      hide SeqInv, Healthy, ProcStep, AllGood, Fresh;
      var n := |es| - 1;
      HealthyRun(c, r, j, es[..n]);
      SeqRun(c, r, j, es[..n]);
      GoodSnoc(es);
      var (r1, p1) := ProcRun(c, r, NewProc(j), es[..n]);
      SeqGives(c, r, r1, p1, Heard(es[..n]));
      ProcHealthy(c, r.files, r1, p1, Heard(es[..n]), AllGood(es[..n]), es[n]);
    }
  }

  lemma SeqGives(c: Config, before: Remote, r: Remote, p: Proc, heard: bool)
    requires SeqInv(c, before, r, p, heard)
    ensures SeqReady(c, before.files, r, p, heard)
    ensures p.job.Copy? && p.job.src != p.job.key ==> Same(before.files, r.files, Sidecar(p.job.src))
  {
    hide ProcOk, WonOk, Progress;
    assert p.job.Copy? && p.job.src != p.job.key ==> !Touches(p, Sidecar(p.job.src));
  }

  /** If all answers are good, and the names of new temporary files are free, a call that
      has ended has succeeded if and only if it should. */
  lemma SucceedsIff(c: Config, r: Remote, j: Job, es: seq<Event>)
    requires Fresh(r) && forall k :: Blob(k) in r.files ==> r.files[Blob(k)].Data?
    requires AllGood(es) && ProcRun(c, r, NewProc(j), es).1.pc == Done
    ensures var (_, p') := ProcRun(c, r, NewProc(j), es); p'.ok <==> Should(c, r.files, j, p'.given)
  {
    hide ProcRun, Should, Fresh, AllGood;
    HealthyRun(c, r, j, es);
    SeqRun(c, r, j, es);
  }

  /** A write to its end, with good answers only: it returns no error if and only if no MD5
      was asked for or it is the one of the bytes, and the key is free or need not be. */
  lemma WriteSucceedsIff(c: Config, r: Remote, key: string, meta: string, contentMD5: Bytes, ifNotExist: bool, es: seq<Event>)
    requires Fresh(r) && forall k :: Blob(k) in r.files ==> r.files[Blob(k)].Data?
    requires AllGood(es) && ProcRun(c, r, NewProc(Write(key, meta, contentMD5, ifNotExist)), es).1.pc == Done
    ensures var (_, p') := ProcRun(c, r, NewProc(Write(key, meta, contentMD5, ifNotExist)), es);
            p'.ok <==> (contentMD5 == [] || contentMD5 == c.hash(p'.given)) && (ifNotExist ==> Blob(key) !in r.files)
  {
    hide ProcRun, Fresh, AllGood;
    SucceedsIff(c, r, Write(key, meta, contentMD5, ifNotExist), es);
  }

  /** A copy: if and only if the blob is there, and its sidecar, if it has one and sidecars
      are kept, can be read. */
  lemma CopySucceedsIff(c: Config, r: Remote, key: string, src: string, es: seq<Event>)
    requires Fresh(r) && forall k :: Blob(k) in r.files ==> r.files[Blob(k)].Data?
    requires AllGood(es) && ProcRun(c, r, NewProc(Copy(key, src)), es).1.pc == Done
    ensures ProcRun(c, r, NewProc(Copy(key, src)), es).1.ok
       <==> Blob(src) in r.files && (c.sidecars && Sidecar(src) in r.files ==> r.files[Sidecar(src)].Attrs?)
  {
    hide ProcRun, Fresh, AllGood;
    SucceedsIff(c, r, Copy(key, src), es);
  }

  /** A delete: if and only if the blob is there. */
  lemma DeleteSucceedsIff(c: Config, r: Remote, key: string, es: seq<Event>)
    requires Fresh(r) && forall k :: Blob(k) in r.files ==> r.files[Blob(k)].Data?
    requires AllGood(es) && ProcRun(c, r, NewProc(Delete(key)), es).1.pc == Done
    ensures ProcRun(c, r, NewProc(Delete(key)), es).1.ok <==> Blob(key) in r.files
  {
    hide ProcRun, Fresh, AllGood;
    SucceedsIff(c, r, Delete(key), es);
  }

  // ---- what a call does, in full ----

  lemma StaysFresh(c: Config, r: Remote, p: Proc, r': Remote, p': Proc)
    requires Fresh(r) && StepOk(c, r, p, r', p')
    ensures Fresh(r')
  {
    assert ProcOk(c, r', p') && Framed(r, r', p') && r.clock <= r'.clock;
    assert p'.hasTemp ==> p'.tag < r'.clock;
    hide StepOk, ProcOk;
    forall q | q in r'.files && IsTemp(q)
      ensures q.tag < r'.clock
    {
      if !Touches(p', q) {
        assert Same(r.files, r'.files, q);
      }
    }
  }

  lemma GoodIsClean(p: Proc, e: Event)
    requires IsGood(e)
    ensures Clean(p, e) && !Leaves(p, e)
  {
  }

  lemma {:induction false} TidyAlone(c: Config, r: Remote, j: Job, es: seq<Event>)
    requires Fresh(r) && AllGood(es) && forall k :: Blob(k) in r.files ==> r.files[Blob(k)].Data?
    ensures var (r', p') := ProcRun(c, r, NewProc(j), es); Fresh(r') && Tidy(c, r'.files, p', false)
  {
    if es != [] {
      hide SeqInv, ProcStep, AllGood, IsGood, Fresh, Tidy, Ready;
      var n := |es| - 1;
      GoodSnoc(es);
      TidyAlone(c, r, j, es[..n]);
      SeqRun(c, r, j, es[..n]);
      var (r1, p1) := ProcRun(c, r, NewProc(j), es[..n]);
      GoodIsClean(p1, es[n]);
      TidyNext(c, r, r1, p1, Heard(es[..n]), es[n]);
    }
  }

  lemma TidyNext(c: Config, before: Remote, r: Remote, p: Proc, heard: bool, e: Event)
    requires SeqInv(c, before, r, p, heard) && Fresh(r) && Tidy(c, r.files, p, false) && Clean(p, e) && !Leaves(p, e)
    ensures var (r', p') := ProcStep(c, r, p, e); Fresh(r') && Tidy(c, r'.files, p', false)
  {
    hide ProcStep, Tidy, WonOk, ProcOk, Progress, Clean, Leaves;
    var (r', p') := ProcStep(c, r, p, e);
    ProcStepOk(c, r, p, e);
    StaysFresh(c, r, p, r', p');
    ProcTidy(c, r, p, true, false, e);
  }

  /** The files after a call that succeeds: the blob with its bytes, and a sidecar with
      their MD5 or the copied attributes; or neither. */
  function Afterwards(c: Config, before: Files, j: Job, given: Bytes): Files {
    match j
    case Write(key, meta, _, _) =>
      if c.sidecars then before[Blob(key) := Data(given)][Sidecar(key) := Attrs(meta, c.hash(given))]
      else before[Blob(key) := Data(given)]
    case Copy(key, src) =>
      var attrs := if Sidecar(src) in before then before[Sidecar(src)] else Attrs("application/octet-stream", []);
      if c.sidecars then before[Blob(key) := Data(given)][Sidecar(key) := attrs]
      else before[Blob(key) := Data(given)]
    case Delete(key) => before - {Blob(key), Sidecar(key)}
  }

  /** What is known of a call that has ended, with good answers only. */
  ghost predicate Settled(c: Config, before: Remote, r: Remote, p: Proc) {
    && SeqInv(c, before, r, p, true) && Healthy(c, before.files, r, p, true) && Tidy(c, r.files, p, false)
    && p.pc == Done && Fresh(before) && (p.ok ==> HasDone(c, before.files, r.files, p.job, p.given))
  }

  lemma {:induction false} GoodIsHeard(es: seq<Event>)
    requires AllGood(es)
    ensures Heard(es)
  {
    forall n | 0 <= n < |es|
      ensures !IsLost(es[n])
    {
      assert IsGood(es[n]);
    }
  }

  lemma Settles(c: Config, r: Remote, j: Job, es: seq<Event>)
    requires Fresh(r) && forall k :: Blob(k) in r.files ==> r.files[Blob(k)].Data?
    requires AllGood(es) && ProcRun(c, r, NewProc(j), es).1.pc == Done
    ensures var (r', p') := ProcRun(c, r, NewProc(j), es); Settled(c, r, r', p') && p'.job == j
  {
    hide ProcRun, AllGood, SeqInv, Healthy, Tidy, Fresh, HasDone;
    HealthyRun(c, r, j, es);
    SeqRun(c, r, j, es);
    TidyAlone(c, r, j, es);
    GoodIsHeard(es);
    if ProcRun(c, r, NewProc(j), es).1.ok {
      CallThatSucceeds(c, r, j, es);
    }
  }

  lemma PlaceIs(c: Config, before: Remote, r: Remote, p: Proc, q: Path)
    requires Settled(c, before, r, p) && (q.Blob? || q.Sidecar?)
    ensures Same(if p.ok then Afterwards(c, before.files, p.job, p.given) else before.files, r.files, q)
  {
    hide ProcOk, Should, Tidy, Fresh, AttrsOk;
    if q.key != p.job.key {
      assert !Touches(p, q);
    }
  }

  lemma TempIs(c: Config, before: Remote, r: Remote, p: Proc, q: Path)
    requires Settled(c, before, r, p) && IsTemp(q)
    ensures Same(if p.ok then Afterwards(c, before.files, p.job, p.given) else before.files, r.files, q)
  {
    hide ProcOk, Should, Progress, HasDone;
    if Touches(p, q) {
      assert q == TempOf(p) || q == TempSidecarOf(p);
      assert q !in before.files;
    }
  }

  lemma SameFiles(a: Files, b: Files)
    requires forall q :: Same(a, b, q)
    ensures a == b
  {
    assert forall q :: q in a ==> Same(a, b, q);
    assert forall q :: q in b ==> Same(a, b, q);
  }

  /** With good answers only, a call that has ended has changed the files to just that, or
      has failed and changed nothing; in particular no temporary file is left. */
  lemma GoodCallDoes(c: Config, r: Remote, j: Job, es: seq<Event>)
    requires Fresh(r) && forall k :: Blob(k) in r.files ==> r.files[Blob(k)].Data?
    requires AllGood(es) && ProcRun(c, r, NewProc(j), es).1.pc == Done
    ensures var (r', p') := ProcRun(c, r, NewProc(j), es);
            r'.files == if p'.ok then Afterwards(c, r.files, j, p'.given) else r.files
  {
    hide ProcRun, AllGood, Afterwards, Settled, Fresh, Same;
    var (r', p') := ProcRun(c, r, NewProc(j), es);
    Settles(c, r, j, es);
    var expected := if p'.ok then Afterwards(c, r.files, j, p'.given) else r.files;
    forall q ensures Same(expected, r'.files, q) {
      if q.Blob? || q.Sidecar? {
        PlaceIs(c, r, r', p', q);
      } else {
        TempIs(c, r, r', p', q);
      }
    }
    SameFiles(expected, r'.files);
  }
}
