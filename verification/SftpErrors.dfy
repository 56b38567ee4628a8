/** No error is swallowed: which answers of the server make a call fail, and that a call
    which is to fail does (blob/sftpblob/sftpblob.go:671-1206). */
module SftpErrors {
  import opened Strings
  import opened SftpPaths
  import opened SftpFiles
  import opened SftpCommit
  import opened SftpRuns
  import opened SftpQuiet
  import opened SftpConditional

  /** A call that is to clean up and return an error, or has done so. */
  predicate IsFailing(p: Proc) {
    !p.ok && (p.pc == UndoAttrs || p.pc == DropAttrs || p.pc == DropTemp || p.pc == Done || (p.pc == Writing && p.failed))
  }

  /** The errors that are passed over: of removals, but for the blob of a delete and the
      one before a plain rename, and of looking whether the destination of a conditional
      write is there.  With the latch set no posix-rename is asked for. */
  predicate IsPassedOver(r: Remote, p: Proc) {
    p.pc == DropAttrs || p.pc == DropTemp || p.pc == RemoveSidecar || p.pc == UndoAttrs || p.pc == Done
    || (p.pc.Commit? && (p.pc.stage == Stat || (p.pc.stage == Posix && r.latch)))
  }

  /** Any other operation that does not get the answer that it was done, and any chunk that
      is not written, makes the call fail. */
  lemma FailingAnswer(c: Config, r: Remote, p: Proc, e: Event)
    requires !p.ok && ChecksOk(c, p)
    requires (e.Go? && e.o != Ok && !IsPassedOver(r, p)) || (e.Chunk? && !e.ok && p.pc == Writing && !p.cancelled)
    ensures IsFailing(ProcStep(c, r, p, e).1)
  {
    hide Apply, Take, MD5Matches, Remove, CommitBlobStep, CommitSidecarStep, OpenStep, CopyBytesStep, StageAttrsStep,
         EncodeAttrsStep, DeleteStep;
    if e.Go? {
      if p.pc.Commit? {
        FailingCommit(c, r, p, e.o);
      } else {
        FailingOthers(c, r, p, e.o, e.n);
      }
    }
  }

  lemma FailingCommit(c: Config, r: Remote, p: Proc, o: Outcome)
    requires !p.ok && p.pc.Commit? && ChecksOk(c, p) && o != Ok && !IsPassedOver(r, p)
    ensures IsFailing(CommitBlobStep(c, r, p, p.pc.stage, o).1)
    ensures IsFailing(CommitSidecarStep(c, r, p, p.pc.stage, o).1)
  {
    hide Apply, Remove, Rename, PosixRename;
  }

  lemma FailingOthers(c: Config, r: Remote, p: Proc, o: Outcome, n: nat)
    requires !p.ok && o != Ok
    ensures IsFailing(OpenStep(r, p, o, n, Writing).1) && IsFailing(OpenStep(r, p, o, n, CopyBytes).1)
    ensures IsFailing(CopyBytesStep(c, r, p, o, n).1)
    ensures IsFailing(StageAttrsStep(r, p, o).1) && IsFailing(EncodeAttrsStep(r, p, o).1)
    ensures p.pc == Idle ==> IsFailing(DeleteStep(r, p, o).1)
  {
    hide Apply, Remove, Take;
  }

  lemma FailingStep(c: Config, r: Remote, p: Proc, e: Event)
    requires IsFailing(p) && ChecksOk(c, p)
    ensures IsFailing(ProcStep(c, r, p, e).1)
  {
    hide Apply, RenameStep, Take, MD5Matches, Remove;
  }

  /** Call j gets a bad answer at event i. */
  predicate GetsBadAnswer(c: Config, s: State, es: seq<(nat, Event)>, i: nat, j: nat)
    requires i < |es| && j < |Run(c, s, es[..i]).procs|
  {
    var r, p, e := Run(c, s, es[..i]).remote, Run(c, s, es[..i]).procs[j], es[i].1;
    es[i].0 == j && ((e.Go? && e.o != Ok && !IsPassedOver(r, p)) || (e.Chunk? && !e.ok && p.pc == Writing && !p.cancelled))
  }

  /** No error is swallowed: once an operation of a call has failed, or its answer was lost,
      the call never returns without an error, in any run. */
  lemma {:induction false} ErrorsAreReported(c: Config, s: State, es: seq<(nat, Event)>, i: nat, j: nat)
    requires IsStart(s) && j < |s.procs| && i < |es|
    requires j < |Run(c, s, es[..i]).procs| && GetsBadAnswer(c, s, es, i, j)
    ensures j < |Run(c, s, es).procs| && IsFailing(Run(c, s, es).procs[j]) && !Run(c, s, es).procs[j].ok
    decreases |es|
  {
    hide ProcStep, IsFailing, IsPassedOver, IsStart, ChecksOk;
    var n := |es| - 1;
    var t := Run(c, s, es[..n]);
    CallKnown(c, s, es[..n], j);
    if i == n {
      if !t.procs[j].ok {
        FailingAnswer(c, t.remote, t.procs[j], es[n].1);
      } else {
        DoneIsOver(t.remote, t.procs[j]);
      }
    } else {
      assert es[..n][..i] == es[..i];
      ErrorsAreReported(c, s, es[..n], i, j);
      FailingStep(c, t.remote, t.procs[j], es[n].1);
    }
    FailingIs(Run(c, s, es).procs[j]);
  }

  lemma FailingIs(p: Proc)
    requires IsFailing(p)
    ensures !p.ok
  {
  }

  lemma CallKnown(c: Config, s: State, es: seq<(nat, Event)>, j: nat)
    requires IsStart(s) && j < |s.procs|
    ensures j < |Run(c, s, es).procs|
    ensures var p := Run(c, s, es).procs[j]; ChecksOk(c, p) && (p.ok ==> p.pc == Done)
  {
    hide IsStart, Run, TidyInv, ChecksOk;
    TidyRun(c, s, es);
    RunProcs(c, s, es);
    TidyGives(c, s.remote.files, Run(c, s, es), j);
  }

  lemma DoneIsOver(r: Remote, p: Proc)
    ensures p.pc == Done ==> IsPassedOver(r, p)
  {
  }
}
