/** Which temporary files a call leaves behind when it has come to its end
    (blob/sftpblob/sftpblob.go:982-1006, 1056-1092, 1164-1181). */
module SftpQuiet {
  import opened Strings
  import opened SftpPaths
  import opened SftpFiles
  import opened SftpCommit
  import opened SftpRuns

  predicate IsTemp(q: Path) {
    q.Temp? || q.TempSidecar?
  }

  /** Which temporary files a call has, if so far none of its answers got lost and no
      removal of its failed; left: it is a copy whose sidecar was not closed. */
  predicate Tidy(c: Config, files: Files, p: Proc, left: bool) {
    && (p.hasTemp ==>
          && (p.pc == Done || p.won ==> TempOf(p) !in files)
          && (!c.sidecars || EarlyOrLate(p.pc) ==> (TempSidecarOf(p) in files <==> left))
          && (p.pc == Done ==> (TempSidecarOf(p) in files <==> (p.won && !p.ok) || left)))
    && (left ==> p.hasTemp && c.sidecars && !p.won && (p.pc == DropTemp || p.pc == Done))
  }

  predicate EarlyOrLate(pc: Pc) {
    pc == Writing || pc == CopyBytes || pc == CopyAttrs || pc == StageAttrs || pc == DropTemp
  }

  /** The state of a call tells whether it has won. */
  predicate WonOk(c: Config, p: Proc) {
    && (p.won ==> p.pc == Done || (p.pc.Commit? && p.pc.side))
    && (p.pc.Commit? && p.pc.side ==> p.won)
    && (p.ok ==> p.pc == Done && (p.won || p.job.Delete?))
    && (p.pc == RemoveSidecar ==> p.job.Delete?)
    && (p.pc == CopyAttrs || IsStaging(p.pc) || p.pc == UndoAttrs ==> c.sidecars)
    && (p.job.Delete? ==> !p.hasTemp)
    && (p.pc == Done && p.won && !c.sidecars ==> p.ok)
  }

  /** An answer that is heard, and not to a last removal that fails. */
  predicate Clean(p: Proc, e: Event) {
    !IsLost(e) && !KeepsTemp(p, e)
  }

  /** A copy has written its sidecar, and closing it fails. */
  predicate Leaves(p: Proc, e: Event) {
    p.job.Copy? && p.pc == CloseAttrs && e.Go? && e.o != Ok
  }

  predicate TidyStep(c: Config, clean: bool, r': Remote, p': Proc, left: bool) {
    WonOk(c, p') && (clean ==> Tidy(c, r'.files, p', left))
  }

  predicate Ready(c: Config, r: Remote, p: Proc, tidy: bool, left: bool) {
    ProcOk(c, r, p) && WonOk(c, p) && (tidy ==> Tidy(c, r.files, p, left))
  }

  lemma OpenTidy(c: Config, r: Remote, p: Proc, tidy: bool, left: bool, o: Outcome, n: nat, next: Pc)
    requires Ready(c, r, p, tidy, left) && !p.job.Delete?
    requires (p.pc == Idle || p.pc == CopyTemp) && (next == Writing || next == CopyBytes)
    requires forall q :: q in r.files && IsTemp(q) ==> q.tag < r.clock
    ensures var (r', p') := OpenStep(r, p, o, n, next); TidyStep(c, tidy && o != Lost, r', p', left)
  {
    hide ChecksOk;
    var q := p.(tag := r.clock + n, hasTemp := true);
    assert TempOf(q) !in r.files && TempSidecarOf(q) !in r.files;
  }

  lemma ChunkTidy(c: Config, r: Remote, p: Proc, tidy: bool, left: bool, chunk: Bytes, ok: bool, n: nat)
    requires Ready(c, r, p, tidy, left) && p.pc == Writing
    ensures var (r', p') := ChunkStep(r, p, chunk, ok, n); TidyStep(c, tidy, r', p', left)
  {
    hide MD5Matches, Take;
  }

  lemma CloseTidy(c: Config, r: Remote, p: Proc, tidy: bool, left: bool, o: Outcome)
    requires Ready(c, r, p, tidy, left) && p.pc == Writing
    ensures var (r', p') := CloseStep(c, r, p, o); TidyStep(c, tidy && o != Lost, r', p', left)
  {
    hide MD5Matches;
  }

  lemma CopyBytesTidy(c: Config, r: Remote, p: Proc, tidy: bool, left: bool, o: Outcome, n: nat)
    requires Ready(c, r, p, tidy, left) && p.pc == CopyBytes
    ensures var (r', p') := CopyBytesStep(c, r, p, o, n); TidyStep(c, tidy && o != Lost, r', p', left)
  {
    hide MD5Matches, Take;
  }

  lemma ReadAttrsTidy(c: Config, r: Remote, p: Proc, tidy: bool, left: bool, o: Outcome)
    requires Ready(c, r, p, tidy, left) && p.pc == CopyAttrs
    ensures var (r', p') := ReadAttrsStep(r, p, o); TidyStep(c, tidy && o != Lost, r', p', left)
  {
    hide MD5Matches;
  }

  lemma StageAttrsTidy(c: Config, r: Remote, p: Proc, tidy: bool, left: bool, o: Outcome)
    requires Ready(c, r, p, tidy, left) && p.pc == StageAttrs
    ensures var (r', p') := StageAttrsStep(r, p, o); TidyStep(c, tidy && o != Lost, r', p', left)
  {
    hide MD5Matches;
  }

  lemma EncodeAttrsTidy(c: Config, r: Remote, p: Proc, tidy: bool, left: bool, o: Outcome)
    requires Ready(c, r, p, tidy, left) && p.pc == EncodeAttrs
    ensures var (r', p') := EncodeAttrsStep(r, p, o); TidyStep(c, tidy && o != Lost, r', p', left)
  {
    hide MD5Matches;
  }

  lemma CloseAttrsTidy(c: Config, r: Remote, p: Proc, tidy: bool, left: bool, o: Outcome)
    requires Ready(c, r, p, tidy, left) && p.pc == CloseAttrs
    ensures var (r', p') := CloseAttrsStep(r, p, o); TidyStep(c, tidy, r', p', left || (p.job.Copy? && o != Ok))
  {
    hide MD5Matches;
  }

  lemma CommitBlobTidy(c: Config, r: Remote, p: Proc, tidy: bool, left: bool, o: Outcome)
    requires Ready(c, r, p, tidy, left) && p.pc.Commit? && !p.pc.side
    ensures var (r', p') := CommitBlobStep(c, r, p, p.pc.stage, o); TidyStep(c, tidy && o != Lost, r', p', left)
  {
    hide RenameStep, ProcOk;
    CommitKnows(c, r, p);
    RenameFrame(c, r, TempOf(p), Blob(p.job.key), p.pc.stage, o);
    RenameElsewhere(c, r, TempOf(p), Blob(p.job.key), p.pc.stage, o, TempSidecarOf(p));
  }

  lemma CommitSidecarTidy(c: Config, r: Remote, p: Proc, tidy: bool, left: bool, o: Outcome)
    requires Ready(c, r, p, tidy, left) && p.pc.Commit? && p.pc.side
    ensures var (r', p') := CommitSidecarStep(c, r, p, p.pc.stage, o); TidyStep(c, tidy && o != Lost, r', p', left)
  {
    hide RenameStep, ProcOk;
    CommitKnows(c, r, p);
    RenameFrame(c, r, TempSidecarOf(p), Sidecar(p.job.key), p.pc.stage, o);
    RenameElsewhere(c, r, TempSidecarOf(p), Sidecar(p.job.key), p.pc.stage, o, TempOf(p));
  }

  lemma OtherTidy(c: Config, r: Remote, p: Proc, tidy: bool, left: bool, o: Outcome, n: nat)
    requires Ready(c, r, p, tidy, left)
    requires p.pc == DropAttrs || p.pc == DropTemp || p.pc == UndoAttrs || p.pc == RemoveSidecar || p.pc == Done
          || (p.pc == Idle && !p.job.Write?)
    ensures var (r', p') := ProcStep(c, r, p, Go(o, n)); TidyStep(c, tidy && Clean(p, Go(o, n)), r', p', left)
  {
    hide MD5Matches, RenameStep;
  }

  lemma ProcTidy(c: Config, r: Remote, p: Proc, tidy: bool, left: bool, e: Event)
    requires Ready(c, r, p, tidy, left)
    requires forall q :: q in r.files && IsTemp(q) ==> q.tag < r.clock
    ensures var (r', p') := ProcStep(c, r, p, e); TidyStep(c, tidy && Clean(p, e), r', p', left || Leaves(p, e))
  {
    hide ChunkStep, CloseStep, OpenStep, CopyBytesStep, ReadAttrsStep, StageAttrsStep, EncodeAttrsStep, CloseAttrsStep;
    hide CommitBlobStep, CommitSidecarStep, Drop, Apply, MD5Matches;
    match e
    case Cancel =>
    case Chunk(chunk, ok, n) => if p.pc == Writing { ChunkTidy(c, r, p, tidy, left, chunk, ok, n); }
    case Go(o, n) =>
      match p.pc
      case Idle =>
        if p.job.Write? { OpenTidy(c, r, p, tidy, left, o, n, Writing); } else { OtherTidy(c, r, p, tidy, left, o, n); }
      case CopyTemp => OpenTidy(c, r, p, tidy, left, o, n, CopyBytes);
      case Writing => CloseTidy(c, r, p, tidy, left, o);
      case CopyBytes => CopyBytesTidy(c, r, p, tidy, left, o, n);
      case CopyAttrs => ReadAttrsTidy(c, r, p, tidy, left, o);
      case StageAttrs => StageAttrsTidy(c, r, p, tidy, left, o);
      case EncodeAttrs => EncodeAttrsTidy(c, r, p, tidy, left, o);
      case CloseAttrs => CloseAttrsTidy(c, r, p, tidy, left, o);
      case Commit(side, _) =>
        if side { CommitSidecarTidy(c, r, p, tidy, left, o); } else { CommitBlobTidy(c, r, p, tidy, left, o); }
      case _ => OtherTidy(c, r, p, tidy, left, o, n);
  }

  /** A temporary file that was there at the start, or is a call's own. */
  ghost predicate Accounted(start: Files, procs: seq<Proc>, q: Path) {
    q in start || exists i :: 0 <= i < |procs| && Owns(procs[i], q)
  }

  predicate Owns(p: Proc, q: Path) {
    p.hasTemp && q.key == p.job.key && IsTemp(q) && q.tag == p.tag
  }

  ghost predicate Clocked(start: Files, s: State) {
    forall q :: q in s.remote.files && IsTemp(q) ==> q.tag < s.remote.clock && Accounted(start, s.procs, q)
  }

  ghost predicate TidyInv(c: Config, start: Files, s: State) {
    && Inv(c, start, s) && Clocked(start, s)
    && (forall i :: 0 <= i < |s.procs| ==> WonOk(c, s.procs[i]))
  }

  lemma ClockedStep(c: Config, start: Files, s: State, i: nat, r': Remote, p': Proc)
    requires Clocked(start, s) && i < |s.procs| && StepOk(c, s.remote, s.procs[i], r', p')
    ensures Clocked(start, State(r', s.procs[i := p']))
  {
    var p, procs' := s.procs[i], s.procs[i := p'];
    assert ProcOk(c, r', p') && s.remote.clock <= r'.clock && Framed(s.remote, r', p');
    assert p'.job == p.job && (p.hasTemp ==> p'.hasTemp && p'.tag == p.tag);
    assert p'.hasTemp ==> p'.tag < r'.clock;
    hide StepOk, ProcOk;
    forall q | q in r'.files && IsTemp(q)
      ensures q.tag < r'.clock && Accounted(start, procs', q)
    {
      if Touches(p', q) {
        assert Owns(procs'[i], q);
      } else {
        assert Same(s.remote.files, r'.files, q);
        AccountedKept(start, s.procs, i, p', q);
      }
    }
  }

  lemma AccountedKept(start: Files, procs: seq<Proc>, i: nat, p': Proc, q: Path)
    requires i < |procs| && Accounted(start, procs, q) && (Owns(procs[i], q) ==> Owns(p', q))
    ensures Accounted(start, procs[i := p'], q)
  {
    hide Owns;
    if q !in start {
      var j :| 0 <= j < |procs| && Owns(procs[j], q);
      assert Owns(procs[i := p'][j], q);
    }
  }

  lemma OthersTidy(c: Config, r: Remote, p: Proc, r': Remote, p': Proc, x: Proc, left: bool)
    requires StepOk(c, r, p, r', p') && Tidy(c, r.files, x, left)
    requires x.hasTemp && p'.hasTemp ==> x.tag != p'.tag
    ensures Tidy(c, r'.files, x, left)
  {
    hide ProcOk, BlobOk, ReadOk;
    assert x.hasTemp ==> !Touches(p', TempOf(x)) && !Touches(p', TempSidecarOf(x));
    assert x.hasTemp ==> Same(r.files, r'.files, TempOf(x)) && Same(r.files, r'.files, TempSidecarOf(x));
  }

  lemma TidyInvStep(c: Config, start: Files, s: State, i: nat, e: Event)
    requires TidyInv(c, start, s)
    ensures TidyInv(c, start, Step(c, s, i, e))
  {
    hide ProcStep, Inv;
    InvStep(c, start, s, i, e);
    if i < |s.procs| {
      var p := s.procs[i];
      var (r', p') := ProcStep(c, s.remote, p, e);
      assert ProcOk(c, s.remote, p) by { InvGives(c, start, s, i, i); }
      ProcStepOk(c, s.remote, p, e);
      ProcTidy(c, s.remote, p, false, false, e);
      ClockedStep(c, start, s, i, r', p');
    }
  }

  /** One call stays tidy, whatever the others do. */
  lemma TidyStays(c: Config, start: Files, s: State, i: nat, e: Event, j: nat, left: bool)
    requires TidyInv(c, start, s) && j < |s.procs| && Tidy(c, s.remote.files, s.procs[j], left)
    requires i == j ==> Clean(s.procs[j], e)
    ensures j < |Step(c, s, i, e).procs|
    ensures Tidy(c, Step(c, s, i, e).remote.files, Step(c, s, i, e).procs[j], left || (i == j && Leaves(s.procs[j], e)))
  {
    hide ProcStep, Inv, Tidy, WonOk, Clean, Leaves;
    if i < |s.procs| {
      var p := s.procs[i];
      var (r', p') := ProcStep(c, s.remote, p, e);
      InvGives(c, start, s, i, j);
      ProcStepOk(c, s.remote, p, e);
      if i == j {
        ProcTidy(c, s.remote, p, true, left, e);
      } else {
        InvStep(c, start, s, i, e);
        InvGives(c, start, Step(c, s, i, e), i, j);
        hide StepOk;
        OthersTidy(c, s.remote, p, r', p', s.procs[j], left);
      }
    }
  }

  lemma InvGives(c: Config, start: Files, s: State, i: nat, j: nat)
    requires Inv(c, start, s) && i < |s.procs| && j < |s.procs|
    ensures ProcOk(c, s.remote, s.procs[i])
    ensures i != j && s.procs[i].hasTemp && s.procs[j].hasTemp ==> s.procs[i].tag != s.procs[j].tag
  {
    hide ProcOk, BlobsKnown;
  }

  lemma {:induction false} TidyRun(c: Config, s: State, es: seq<(nat, Event)>)
    requires IsStart(s)
    ensures TidyInv(c, s.remote.files, Run(c, s, es))
  {
    if es == [] {
      InvStart(c, s);
      assert forall i :: 0 <= i < |s.procs| ==> s.procs[i] == NewProc(s.procs[i].job);
    } else {
      hide TidyInv, IsStart, Step;
      var n := |es| - 1;
      TidyRun(c, s, es[..n]);
      TidyInvStep(c, s.remote.files, Run(c, s, es[..n]), es[n].0, es[n].1);
    }
  }

  lemma {:induction false} RunProcs(c: Config, s: State, es: seq<(nat, Event)>)
    ensures |Run(c, s, es).procs| == |s.procs|
  {
    hide ProcStep;
    if es != [] {
      RunProcs(c, s, es[..|es| - 1]);
    }
  }

  /** In a run, no answer to call j got lost, and no removal of its files failed. */
  ghost predicate CleanRun(c: Config, s: State, es: seq<(nat, Event)>, j: nat) {
    forall n :: 0 <= n < |es| && es[n].0 == j && j < |Run(c, s, es[..n]).procs| ==>
      Clean(Run(c, s, es[..n]).procs[j], es[n].1)
  }

  /** In a run, call j was a copy that had written its sidecar and failed to close it. */
  ghost predicate FailsToClose(c: Config, s: State, es: seq<(nat, Event)>, j: nat) {
    exists n :: 0 <= n < |es| && LeavesAt(c, s, es, j, n)
  }

  ghost predicate LeavesAt(c: Config, s: State, es: seq<(nat, Event)>, j: nat, n: nat)
    requires n < |es|
  {
    es[n].0 == j && j < |Run(c, s, es[..n]).procs| && Leaves(Run(c, s, es[..n]).procs[j], es[n].1)
  }

  lemma CleanFront(c: Config, s: State, es: seq<(nat, Event)>, j: nat)
    requires CleanRun(c, s, es, j) && es != [] && j < |s.procs|
    ensures CleanRun(c, s, es[..|es| - 1], j)
    ensures j < |Run(c, s, es[..|es| - 1]).procs|
    ensures es[|es| - 1].0 == j ==> Clean(Run(c, s, es[..|es| - 1]).procs[j], es[|es| - 1].1)
  {
    hide Clean, Run;
    var front := es[..|es| - 1];
    RunProcs(c, s, front);
    forall n | 0 <= n < |front| && front[n].0 == j && j < |Run(c, s, front[..n]).procs|
      ensures Clean(Run(c, s, front[..n]).procs[j], front[n].1)
    {
      assert front[..n] == es[..n];
    }
  }

  lemma FailsToCloseFront(c: Config, s: State, es: seq<(nat, Event)>, j: nat)
    requires es != []
    ensures var n := |es| - 1;
            FailsToClose(c, s, es, j) <==> FailsToClose(c, s, es[..n], j) || LeavesAt(c, s, es, j, n)
  {
    hide Run, Leaves;
    var front := es[..|es| - 1];
    forall n | 0 <= n < |front|
      ensures LeavesAt(c, s, front, j, n) <==> LeavesAt(c, s, es, j, n)
    {
      assert front[..n] == es[..n];
    }
  }

  lemma {:induction false} CallTidy(c: Config, s: State, es: seq<(nat, Event)>, j: nat)
    requires IsStart(s) && j < |s.procs| && CleanRun(c, s, es, j)
    ensures j < |Run(c, s, es).procs|
    ensures Tidy(c, Run(c, s, es).remote.files, Run(c, s, es).procs[j], FailsToClose(c, s, es, j))
  {
    hide TidyInv, CleanRun, Step;
    if es == [] {
      assert s.procs[j] == NewProc(s.procs[j].job);
    } else {
      hide IsStart, FailsToClose;
      var n := |es| - 1;
      CleanFront(c, s, es, j);
      CallTidy(c, s, es[..n], j);
      TidyRun(c, s, es[..n]);
      FailsToCloseFront(c, s, es, j);
      TidyStays(c, s.remote.files, Run(c, s, es[..n]), es[n].0, es[n].1, j, FailsToClose(c, s, es[..n], j));
    }
  }

  /** What a call leaves behind that has come to its end, in any run, if no answer to it
      got lost and no removal of its files failed: never the temporary blob, and the
      temporary sidecar if and only if it was not renamed after its blob was, or the call
      is a copy that failed to close it. */
  lemma LeftBehindIff(c: Config, s: State, es: seq<(nat, Event)>, j: nat)
    requires IsStart(s) && j < |s.procs| && CleanRun(c, s, es, j)
    requires j < |Run(c, s, es).procs| && Run(c, s, es).procs[j].pc == Done && Run(c, s, es).procs[j].hasTemp
    ensures var (files, p) := (Run(c, s, es).remote.files, Run(c, s, es).procs[j]);
            && TempOf(p) !in files
            && (TempSidecarOf(p) in files <==> (p.won && !p.ok) || FailsToClose(c, s, es, j))
  {
    hide IsStart, CleanRun, Run, FailsToClose;
    CallTidy(c, s, es, j);
  }

  /** So when the calls on a key have come to their ends in such a way, what lies there
      of temporary files lay there at the start, or is the sidecar of a call that has
      returned an error after its blob was in place, or of a copy that failed to close
      it. */
  lemma NothingElseLeftBehind(c: Config, s: State, es: seq<(nat, Event)>, q: Path)
    requires IsStart(s) && IsTemp(q) && q in Run(c, s, es).remote.files
    requires forall j :: 0 <= j < |s.procs| && s.procs[j].job.key == q.key ==> CleanRun(c, s, es, j)
    requires (forall j :: 0 <= j < |Run(c, s, es).procs| && Run(c, s, es).procs[j].job.key == q.key ==>
                Run(c, s, es).procs[j].pc == Done || !Run(c, s, es).procs[j].hasTemp)
    ensures q in s.remote.files
            || exists j :: 0 <= j < |Run(c, s, es).procs|
                           && var p := Run(c, s, es).procs[j];
                              q == TempSidecarOf(p) && ((p.won && !p.ok) || FailsToClose(c, s, es, j))
  {
    hide IsStart, CleanRun, Run, Inv, FailsToClose;
    var t := Run(c, s, es);
    TidyRun(c, s, es);
    RunProcs(c, s, es);
    assert Accounted(s.remote.files, t.procs, q);
    if q !in s.remote.files {
      var j: nat :| j < |t.procs| && Owns(t.procs[j], q);
      RunJobs(c, s, es, j);
      LeftBehindIff(c, s, es, j);
      OwnedIs(t.procs[j], q);
    }
  }

  lemma OwnedIs(p: Proc, q: Path)
    requires Owns(p, q)
    ensures q == TempOf(p) || q == TempSidecarOf(p)
  {
  }

  lemma {:induction false} RunJobs(c: Config, s: State, es: seq<(nat, Event)>, j: nat)
    requires IsStart(s) && j < |s.procs|
    ensures j < |Run(c, s, es).procs| && Run(c, s, es).procs[j].job == s.procs[j].job
  {
    if es != [] {
      hide IsStart, Step, Inv, ProcOk;
      var n := |es| - 1;
      RunJobs(c, s, es[..n], j);
      var t := Run(c, s, es[..n]);
      InvRun(c, s, es[..n]);
      InvGives(c, s.remote.files, t, j, j);
      StepJob(c, t, es[n].0, es[n].1, j);
    }
  }

  lemma StepJob(c: Config, s: State, i: nat, e: Event, j: nat)
    requires j < |s.procs| && ProcOk(c, s.remote, s.procs[j])
    ensures j < |Step(c, s, i, e).procs| && Step(c, s, i, e).procs[j].job == s.procs[j].job
  {
    hide ProcStep, ProcOk, ReadOk, BlobOk, Framed;
    if i == j {
      ProcStepOk(c, s.remote, s.procs[j], e);
    }
  }
}
