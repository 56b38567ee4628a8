/** The bucket and its writers as objects, changing remote files step by step
    (blob/sftpblob/sftpblob.go:582-619, 836-1206).  What each method does is a run of
    one call in SftpCommit. */
module SftpBucket {
  import opened Strings
  import opened SftpPaths
  import opened SftpFiles
  import opened SftpCommit
  import opened SftpHealthy
  import opened SftpQuiet
  import opened SftpSequential

  /** Some events take one call from here to there; good: with good answers only. */
  ghost predicate Reaches(c: Config, r: Remote, p: Proc, r': Remote, p': Proc, good: bool) {
    exists es :: ProcRun(c, r, p, es) == (r', p') && (good ==> AllGood(es))
  }

  lemma ReachesStart(c: Config, r: Remote, p: Proc)
    ensures Reaches(c, r, p, r, p, true)
  {
    assert ProcRun(c, r, p, []) == (r, p) && AllGood([]);
  }

  /** The next event of a call. */
  lemma Advance(c: Config, r: Remote, p: Proc, r1: Remote, p1: Proc, good: bool, e: Event)
    requires Reaches(c, r, p, r1, p1, good)
    ensures Reaches(c, r, p, ProcStep(c, r1, p1, e).0, ProcStep(c, r1, p1, e).1, good && IsGood(e))
  {
    hide ProcStep, IsGood, AllGood;
    var es :| ProcRun(c, r, p, es) == (r1, p1) && (good ==> AllGood(es));
    assert (es + [e])[..|es + [e]| - 1] == es;
    GoodSnoc(es + [e]);
    assert ProcRun(c, r, p, es + [e]) == ProcStep(c, r1, p1, e);
  }

  lemma ReachesAll(c: Config, r: Remote, p: Proc, r1: Remote, p1: Proc, r2: Remote, p2: Proc, good: bool, good': bool)
    requires Reaches(c, r, p, r1, p1, good) && Reaches(c, r1, p1, r2, p2, good')
    ensures Reaches(c, r, p, r2, p2, good && good')
  {
    hide IsGood;
    var es :| ProcRun(c, r, p, es) == (r1, p1) && (good ==> AllGood(es));
    var ds :| ProcRun(c, r1, p1, ds) == (r2, p2) && (good' ==> AllGood(ds));
    RunAppend(c, r, p, es, ds);
  }

  lemma {:induction false} RunAppend(c: Config, r: Remote, p: Proc, es: seq<Event>, ds: seq<Event>)
    ensures var (r1, p1) := ProcRun(c, r, p, es); ProcRun(c, r, p, es + ds) == ProcRun(c, r1, p1, ds)
  {
    hide ProcStep;
    if ds == [] {
      assert es + ds == es;
    } else {
      var n := |ds| - 1;
      assert (es + ds)[..|es + ds| - 1] == es + ds[..n] && (es + ds)[|es + ds| - 1] == ds[n];
      RunAppend(c, r, p, es, ds[..n]);
    }
  }

  datatype PosixAnswer = Replaced | Unimplemented | Failed

  /** A call, and how things stood at some moment of it. */
  datatype Moment = Moment(remote: Remote, call: Proc, asked: nat)

  class Bucket {
    const c: Config
    const answers: nat -> (Outcome, nat)   // how the remote operations go

    var asked: nat
    var files: Files
    var posixRenameUnsupported: bool
    var clock: nat

    constructor (c: Config, answers: nat -> (Outcome, nat), files: Files, clock: nat)
      ensures this.c == c && this.answers == answers
      ensures State() == Remote(files, false, clock) && asked == 0
    {
      this.c, this.answers, this.files, this.clock := c, answers, files, clock;
      asked, posixRenameUnsupported := 0, false;
    }

    ghost function State(): Remote
      reads this
    {
      Remote(files, posixRenameUnsupported, clock)
    }

    /** Have all answers between two moments been good ones? */
    predicate AllOk(from: nat, to: nat) {
      forall i :: from <= i < to ==> answers(i).0 == Ok
    }

    ghost function Now(call: Proc): Moment
      reads this
    {
      Moment(State(), call, asked)
    }

    /** The call m has come to p since, by events that were good if all answers were. */
    ghost predicate Came(m: Moment, p: Proc)
      reads this
    {
      m.asked <= asked && Reaches(c, m.remote, m.call, State(), p, AllOk(m.asked, asked))
    }

    lemma CameStart(p: Proc)
      ensures Came(Now(p), p)
    {
      hide Reaches;
      ReachesStart(c, State(), p);
      assert AllOk(asked, asked);
    }

    lemma AllOkNext(from: nat, to: nat)
      requires from <= to
      ensures AllOk(from, to + 1) <==> AllOk(from, to) && answers(to).0 == Ok
    {
    }

    /** One answer later. */
    lemma CameNext(m: Moment, r: Remote, p: Proc, e: Event) returns (p': Proc)
      requires m.asked < asked && Reaches(c, m.remote, m.call, r, p, AllOk(m.asked, asked - 1))
      requires State() == ProcStep(c, r, p, e).0 && (IsGood(e) <==> answers(asked - 1).0 == Ok)
      ensures p' == ProcStep(c, r, p, e).1 && Came(m, p')
    {
      hide Reaches, ProcStep, IsGood, AllOk;
      AllOkNext(m.asked, asked - 1);
      Advance(c, m.remote, m.call, r, p, AllOk(m.asked, asked - 1), e);
      p' := ProcStep(c, r, p, e).1;
    }

    lemma CameAll(m: Moment, m1: Moment, p: Proc)
      requires m.asked <= m1.asked && Came(m1, p)
      requires Reaches(c, m.remote, m.call, m1.remote, m1.call, AllOk(m.asked, m1.asked))
      ensures Came(m, p)
    {
      hide Reaches;
      ReachesAll(c, m.remote, m.call, m1.remote, m1.call, State(), p, AllOk(m.asked, m1.asked), AllOk(m1.asked, asked));
      assert AllOk(m.asked, asked) <==> AllOk(m.asked, m1.asked) && AllOk(m1.asked, asked);
    }

    method Next() returns (o: Outcome, n: nat)
      modifies this`asked
      ensures (o, n) == answers(old(asked)) && asked == old(asked) + 1
    {
      var answer := answers(asked);
      asked := asked + 1;
      return answer.0, answer.1;
    }

    method Perform(o: Outcome, done: Option<Files>)
      modifies this`files
      ensures State() == Apply(old(State()), o, done)
    {
      if o != Fail && done.Some? {
        files := done.value;
      }
    }

    // ---- the client's operations ----

    method Stat(p: Path) returns (found: bool, ghost o: Outcome)
      modifies this`asked
      ensures asked == old(asked) + 1 && o == answers(old(asked)).0
      ensures found == (o == Ok && p in files)
    {
      var o1, _ := Next();
      found, o := o1 == Ok && p in files, o1;
    }

    method Rename(src: Path, dst: Path) returns (ok: bool, ghost o: Outcome)
      modifies this`asked, this`files
      ensures asked == old(asked) + 1 && o == answers(old(asked)).0
      ensures var done := SftpFiles.Rename(c, old(files), src, dst);
              State() == Apply(old(State()), o, done) && ok == Worked(o, done)
    {
      var o1, _ := Next();
      var done := SftpFiles.Rename(c, files, src, dst);
      ok, o := Worked(o1, done), o1;
      Perform(o1, done);
    }

    method PosixRename(src: Path, dst: Path) returns (answer: PosixAnswer, ghost o: Outcome)
      modifies this`asked, this`files
      ensures asked == old(asked) + 1 && o == answers(old(asked)).0
      ensures var done := SftpFiles.PosixRename(c, old(files), src, dst);
              && (answer == Replaced <==> Worked(o, done))
              && (answer == Unimplemented <==> o == Ok && !c.posix)
              && State() == Apply(old(State()), o, done)
    {
      var o1, _ := Next();
      var done := SftpFiles.PosixRename(c, files, src, dst);
      answer := if o1 != Ok then Failed else if !c.posix then Unimplemented else if done.Some? then Replaced else Failed;
      o := o1;
      Perform(o1, done);
    }

    /** Remove; a file that is not there is no error to any caller but Delete. */
    method Remove(p: Path) returns (answered: bool, was: bool, ghost o: Outcome)
      modifies this`asked, this`files
      ensures asked == old(asked) + 1 && o == answers(old(asked)).0
      ensures var done := SftpFiles.Remove(old(files), p);
              State() == Apply(old(State()), o, done) && answered == (o == Ok) && was == (p in old(files))
    {
      var o1, _ := Next();
      answered, was, o := o1 == Ok, p in files, o1;
      Perform(o1, SftpFiles.Remove(files, p));
    }

    /** getAttrs; a blob without a sidecar has default attributes. */
    method GetAttrs(src: string) returns (attrs: Option<File>, ghost o: Outcome)
      modifies this`asked
      ensures asked == old(asked) + 1 && o == answers(old(asked)).0
      ensures attrs == if o != Ok then None
                       else if Sidecar(src) !in files then Some(Attrs(DEFAULT_META, []))
                       else if files[Sidecar(src)].Attrs? then Some(files[Sidecar(src)])
                       else None
    {
      var o1, _ := Next();
      o := o1;
      if o1 != Ok || (Sidecar(src) in files && !files[Sidecar(src)].Attrs?) {
        return None, o;
      }
      attrs := Some(if Sidecar(src) in files then files[Sidecar(src)] else Attrs(DEFAULT_META, []));
    }

    /** Create and Encode of setAttrs: f is what the file holds after it. */
    method Put(path: Path, f: File, ghost m: Moment, ghost p0: Proc) returns (ok: bool, ghost p: Proc)
      requires path == TempSidecarOf(p0) && Came(m, p0)
      requires (p0.pc == StageAttrs && !p0.cancelled && f == Torn) || (p0.pc == EncodeAttrs && f == p0.attrs)
      modifies this`asked, this`files
      ensures Came(m, p)
      ensures p == if p0.pc == EncodeAttrs then p0.(pc := if ok then CloseAttrs else UndoAttrs)
                   else if ok then p0.(pc := EncodeAttrs) else NoAttrs(p0)
    {
      hide Reaches, ProcStep, AllOk;
      ghost var r := State();
      var o, _ := Next();
      Perform(o, Some(files[path := f]));
      PutIs(c, r, p0, o);
      p := CameNext(m, r, p0, Go(o, 0));
      ok := o == Ok;
    }

    /** The removal of a sidecar that could not be written. */
    method Undo(path: Path, ghost m: Moment, ghost p0: Proc) returns (ghost p: Proc)
      requires p0.pc == UndoAttrs && path == TempSidecarOf(p0) && Came(m, p0)
      modifies this`asked, this`files
      ensures p == NoAttrs(p0) && Came(m, p)
    {
      hide Reaches, ProcStep, AllOk, Apply, SftpFiles.Remove;
      ghost var r := State();
      var _, _, o := Remove(path);
      UndoAttrsIs(c, r, p0, o);
      p := CameNext(m, r, p0, Go(o, 0));
    }

    method CloseSidecar(ghost m: Moment, ghost p0: Proc) returns (ok: bool, ghost p: Proc)
      requires p0.pc == CloseAttrs && Came(m, p0)
      modifies this`asked
      ensures Came(m, p) && p == if ok then StartCommit(p0) else NoAttrs(p0)
    {
      hide Reaches, ProcStep, AllOk;
      ghost var r := State();
      var o, _ := Next();
      CloseAttrsIs(c, r, p0, o);
      p := CameNext(m, r, p0, Go(o, 0));
      ok := o == Ok;
    }

    /** setAttrs.  One that fails to write removes the file, one that fails to close it
        does not. */
    method SetAttrs(path: Path, attrs: File, ghost m: Moment, ghost p0: Proc) returns (ok: bool, ghost p: Proc)
      requires p0.pc == StageAttrs && !p0.cancelled && path == TempSidecarOf(p0) && attrs == p0.attrs && Came(m, p0)
      modifies this`asked, this`files
      ensures Came(m, p)
      ensures p == if ok then StartCommit(p0) else NoAttrs(p0)
    {
      hide Came;
      ok, p := Put(path, Torn, m, p0);
      if !ok {
        return;
      }
      ok, p := Put(path, attrs, m, p);
      if !ok {
        p := Undo(path, m, p);
        return;
      }
      ok, p := CloseSidecar(m, p);
    }

    // ---- commitRename ----

    /** The blob or the sidecar that call p is about to rename. */
    ghost predicate IsRename(p: Proc, src: Path, dst: Path) {
      && p.pc.Commit?
      && src == (if p.pc.side then TempSidecarOf(p) else TempOf(p))
      && dst == (if p.pc.side then Sidecar(p.job.key) else Blob(p.job.key))
    }

    /** A step of commitRename is a step of the call. */
    lemma RenameGoes(m: Moment, p: Proc, at: Stage, r: Remote, src: Path, dst: Path, o: Outcome)
      requires IsRename(p, src, dst) && at != Renamed && at != Refused
      requires m.asked < asked && o == answers(asked - 1).0
      requires Reaches(c, m.remote, m.call, r, p.(pc := Commit(p.pc.side, at)), AllOk(m.asked, asked - 1))
      requires State() == RenameStep(c, r, src, dst, at, o).0
      ensures var next := RenameStep(c, r, src, dst, at, o).1;
              Came(m, if next == Renamed || next == Refused then AfterRename(c, p, next == Renamed)
                      else p.(pc := Commit(p.pc.side, next)))
    {
      hide Reaches, RenameStep, AllOk, ProcStep, AfterRename;
      RenameIs(c, p, at, r, src, dst, o);
      var p' := CameNext(m, r, p.(pc := Commit(p.pc.side, at)), Go(o, 0));
    }

    method CommitRename(src: Path, dst: Path, ifNotExist: bool, ghost m: Moment, ghost p: Proc) returns (ok: bool)
      requires IsRename(p, src, dst) && p.pc.stage == FirstStage(ifNotExist) && Came(m, p)
      modifies this`asked, this`files, this`posixRenameUnsupported
      ensures Came(m, AfterRename(c, p, ok))
    {
      StageIs(p);
      hide Reaches, AllOk, AfterRename, IsRename;
      if ifNotExist {
        ok := RenameIfAbsent(src, dst, m, p);
        return;
      }
      var answer := Unimplemented;
      if !posixRenameUnsupported {
        answer := RenameOver(src, dst, m, p);
        if answer != Unimplemented {
          return answer == Replaced;
        }
        posixRenameUnsupported := true;
      } else {
        LatchSkips(src, dst, m, p);
      }
      ok := RemoveThenRename(src, dst, m, p);
    }

    /** Known not to be there, posix-rename is not tried. */
    lemma LatchSkips(src: Path, dst: Path, m: Moment, p: Proc)
      requires IsRename(p, src, dst) && p.pc.stage == Posix && Came(m, p) && posixRenameUnsupported
      ensures Came(m, p.(pc := Commit(p.pc.side, Unlink)))
    {
      hide Reaches, AllOk;
      Advance(c, m.remote, m.call, State(), p, AllOk(m.asked, asked), Go(Ok, 0));
    }

    /** The part of commitRename for IfNotExist. */
    method RenameIfAbsent(src: Path, dst: Path, ghost m: Moment, ghost p: Proc) returns (ok: bool)
      requires IsRename(p, src, dst) && Came(m, p.(pc := Commit(p.pc.side, Stage.Stat)))
      modifies this`asked, this`files
      ensures Came(m, AfterRename(c, p, ok))
    {
      hide Reaches, AfterRename, RenameStep, IsRename, AllOk, Worked, SftpFiles.Rename, Apply;
      ghost var r := State();
      var found, o := Stat(dst);
      StatStage(c, r, src, dst, o);
      RenameGoes(m, p, Stage.Stat, r, src, dst, o);
      if found {
        return false;
      }
      r := State();
      ok, o := Rename(src, dst);
      LinkStage(c, r, src, dst, Link, o);
      RenameGoes(m, p, Link, r, src, dst, o);
    }

    /** posix-rename@openssh.com. */
    method RenameOver(src: Path, dst: Path, ghost m: Moment, ghost p: Proc) returns (answer: PosixAnswer)
      requires IsRename(p, src, dst) && Came(m, p.(pc := Commit(p.pc.side, Posix))) && !posixRenameUnsupported
      modifies this`asked, this`files
      ensures answer != Unimplemented ==> Came(m, AfterRename(c, p, answer == Replaced))
      ensures answer == Unimplemented ==>
                && m.asked <= asked
                && Reaches(c, m.remote, m.call, State().(latch := true), p.(pc := Commit(p.pc.side, Unlink)),
                           AllOk(m.asked, asked))
    {
      hide Reaches, AfterRename, RenameStep, IsRename, AllOk, Worked, SftpFiles.PosixRename, Apply;
      ghost var r := State();
      ghost var o: Outcome;
      answer, o := PosixRename(src, dst);
      PosixStage(c, r, src, dst, o);
      if answer == Unimplemented {
        NoPosix(m, p, r, src, dst, o);
      } else {
        RenameGoes(m, p, Posix, r, src, dst, o);
      }
    }

    lemma NoPosix(m: Moment, p: Proc, r: Remote, src: Path, dst: Path, o: Outcome)
      requires IsRename(p, src, dst) && m.asked < asked && o == answers(asked - 1).0
      requires Reaches(c, m.remote, m.call, r, p.(pc := Commit(p.pc.side, Posix)), AllOk(m.asked, asked - 1))
      requires RenameStep(c, r, src, dst, Posix, o) == (State().(latch := true), Unlink)
      ensures Reaches(c, m.remote, m.call, State().(latch := true), p.(pc := Commit(p.pc.side, Unlink)), AllOk(m.asked, asked))
    {
      hide Reaches, RenameStep, AllOk;
      AllOkNext(m.asked, asked - 1);
      Advance(c, m.remote, m.call, r, p.(pc := Commit(p.pc.side, Posix)), AllOk(m.asked, asked - 1), Go(o, 0));
    }

    /** The fallback of commitRename. */
    method RemoveThenRename(src: Path, dst: Path, ghost m: Moment, ghost p: Proc) returns (ok: bool)
      requires IsRename(p, src, dst) && Came(m, p.(pc := Commit(p.pc.side, Unlink)))
      modifies this`asked, this`files
      ensures Came(m, AfterRename(c, p, ok))
    {
      hide Reaches, AfterRename, RenameStep, IsRename, AllOk, Worked, SftpFiles.Rename, SftpFiles.Remove, Apply;
      ghost var r := State();
      var answered, _, o := Remove(dst);
      UnlinkStage(c, r, src, dst, o);
      RenameGoes(m, p, Unlink, r, src, dst, o);
      if !answered {
        return false;
      }
      r := State();
      ok, o := Rename(src, dst);
      LinkStage(c, r, src, dst, Fallback, o);
      RenameGoes(m, p, Fallback, r, src, dst, o);
    }
  }

  lemma RenameIs(c: Config, p: Proc, at: Stage, r: Remote, src: Path, dst: Path, o: Outcome)
    requires p.pc.Commit? && at != Renamed && at != Refused
    requires src == if p.pc.side then TempSidecarOf(p) else TempOf(p)
    requires dst == if p.pc.side then Sidecar(p.job.key) else Blob(p.job.key)
    ensures var (r', next) := RenameStep(c, r, src, dst, at, o);
            ProcStep(c, r, p.(pc := Commit(p.pc.side, at)), Go(o, 0))
            == (r', if next == Renamed || next == Refused then AfterRename(c, p, next == Renamed)
                    else p.(pc := Commit(p.pc.side, next)))
  {
    hide RenameStep;
  }

  lemma StageIs(p: Proc)
    requires p.pc.Commit?
    ensures p == p.(pc := Commit(p.pc.side, p.pc.stage))
  {
  }

  lemma StatStage(c: Config, r: Remote, src: Path, dst: Path, o: Outcome)
    ensures RenameStep(c, r, src, dst, Stat, o) == (r, if o == Ok && dst in r.files then Refused else Link)
  {
  }

  lemma LinkStage(c: Config, r: Remote, src: Path, dst: Path, stage: Stage, o: Outcome)
    requires stage == Link || stage == Fallback
    ensures var done := SftpFiles.Rename(c, r.files, src, dst);
            RenameStep(c, r, src, dst, stage, o) == (Apply(r, o, done), if Worked(o, done) then Renamed else Refused)
  {
    hide Apply, Worked, SftpFiles.Rename;
  }

  lemma PosixStage(c: Config, r: Remote, src: Path, dst: Path, o: Outcome)
    ensures var done := SftpFiles.PosixRename(c, r.files, src, dst);
            RenameStep(c, r, src, dst, Posix, o)
            == if r.latch then (r, Unlink)
               else if o == Ok && !c.posix then (Apply(r, o, done).(latch := true), Unlink)
               else (Apply(r, o, done), if Worked(o, done) then Renamed else Refused)
  {
  }

  lemma UnlinkStage(c: Config, r: Remote, src: Path, dst: Path, o: Outcome)
    ensures RenameStep(c, r, src, dst, Unlink, o)
         == (Apply(r, o, SftpFiles.Remove(r.files, dst)), if o == Ok then Fallback else Refused)
  {
    hide Apply, SftpFiles.Remove;
  }

  /** Where a call stands after its renaming. */
  function AfterRename(c: Config, p: Proc, ok: bool): Proc
    requires p.pc.Commit?
  {
    if p.pc.side then Finish(p, ok)
    else if !ok then CleanUp(c, p)
    else if c.sidecars then p.(won := true, pc := Commit(true, FirstStage(false)))
    else Finish(p.(won := true), true)
  }

  // The steps of a call, by where it stands.

  lemma CloseIs(c: Config, r: Remote, p: Proc, o: Outcome, n: nat)
    requires p.job.Write? && p.pc == Writing
    ensures ProcStep(c, r, p, Go(o, n)) == CloseStep(c, r, p, o)
  {
    hide CloseStep;
  }

  lemma PutIs(c: Config, r: Remote, p: Proc, o: Outcome)
    requires (p.pc == StageAttrs && !p.cancelled) || p.pc == EncodeAttrs
    ensures var f := if p.pc == StageAttrs then Torn else p.attrs;
            ProcStep(c, r, p, Go(o, 0))
            == (Apply(r, o, Some(r.files[TempSidecarOf(p) := f])),
                if p.pc == EncodeAttrs then p.(pc := if o == Ok then CloseAttrs else UndoAttrs)
                else if o == Ok then p.(pc := EncodeAttrs) else NoAttrs(p))
  {
    hide Apply;
  }

  lemma CloseAttrsIs(c: Config, r: Remote, p: Proc, o: Outcome)
    requires p.pc == CloseAttrs
    ensures ProcStep(c, r, p, Go(o, 0)) == (r, if o == Ok then StartCommit(p) else NoAttrs(p))
  {
  }

  lemma UndoAttrsIs(c: Config, r: Remote, p: Proc, o: Outcome)
    requires p.pc == UndoAttrs
    ensures ProcStep(c, r, p, Go(o, 0)) == (Apply(r, o, SftpFiles.Remove(r.files, TempSidecarOf(p))), NoAttrs(p))
  {
    hide Apply, SftpFiles.Remove;
  }

  lemma DropAttrsIs(c: Config, r: Remote, p: Proc, o: Outcome)
    requires p.pc == DropAttrs
    ensures ProcStep(c, r, p, Go(o, 0)) == (Apply(r, o, SftpFiles.Remove(r.files, TempSidecarOf(p))), p.(pc := DropTemp))
  {
    hide Apply, SftpFiles.Remove;
  }

  lemma DropTempIs(c: Config, r: Remote, p: Proc, o: Outcome)
    requires p.pc == DropTemp
    ensures ProcStep(c, r, p, Go(o, 0)) == (Apply(r, o, SftpFiles.Remove(r.files, TempOf(p))), Finish(p, false))
  {
    hide Apply, SftpFiles.Remove;
  }

  lemma CopyOpenIs(c: Config, r: Remote, p: Proc, o: Outcome)
    requires p.job.Copy? && p.pc == Idle
    ensures ProcStep(c, r, p, Go(o, 0)) == CopyOpenStep(r, p, o)
  {
    hide CopyOpenStep;
  }

  lemma CopyTempIs(c: Config, r: Remote, p: Proc, o: Outcome, n: nat)
    requires p.pc == CopyTemp
    ensures var q := p.(tag := r.clock + n, hasTemp := true);
            var path := Temp(p.job.key, r.clock + n);
            var done := if path in r.files then None else Some(r.files[path := Data([])]);
            ProcStep(c, r, p, Go(o, n))
            == (Apply(r.(clock := r.clock + n + 1), o, done),
                if Worked(o, done) then q.(pc := CopyBytes) else Finish(q, false))
  {
    hide Apply;
  }

  lemma CopyBytesIs(c: Config, r: Remote, p: Proc, o: Outcome, n: nat)
    requires p.pc == CopyBytes
    ensures ProcStep(c, r, p, Go(o, n)) == CopyBytesStep(c, r, p, o, n)
  {
    hide CopyBytesStep;
  }

  lemma ReadAttrsIs(c: Config, r: Remote, p: Proc, o: Outcome)
    requires p.pc == CopyAttrs
    ensures var (r', p') := ProcStep(c, r, p, Go(o, 0));
            var attrs := ReadAttrs(r, p, o);
            && r' == r
            && p' == p.(attrs := p'.attrs, pc := if attrs.Some? then StageAttrs else DropTemp)
            && (attrs.Some? ==> p'.attrs == attrs.value)
  {
    hide ReadAttrs;
  }

  class Writer {
    const bucket: Bucket
    const path: string
    const tag: nat
    const meta: string
    const contentMD5: Bytes
    const ifNotExist: bool

    var hashed: Bytes     // what has gone into md5hash
    var failed: bool
    var cancelled: bool   // ctx.Err() != nil
    var closed: bool
    ghost var p: Proc     // this writer as a call

    constructor (bucket: Bucket, path: string, tag: nat, meta: string, contentMD5: Bytes, ifNotExist: bool, ghost p: Proc)
      requires p == NewProc(Job.Write(path, meta, contentMD5, ifNotExist)).(tag := tag, hasTemp := true, pc := Writing)
      ensures this.bucket == bucket && this.path == path && this.tag == tag && this.p == p
      ensures Valid() && !closed && !cancelled
    {
      this.bucket, this.path, this.tag, this.meta := bucket, path, tag, meta;
      this.contentMD5, this.ifNotExist, this.p := contentMD5, ifNotExist, p;
      hashed, failed, cancelled, closed := [], false, false, false;
    }

    ghost predicate Valid()
      reads this
    {
      && p.job == Job.Write(path, meta, contentMD5, ifNotExist)
      && p.tag == tag && p.hasTemp
      && (closed <==> p.pc == Done)
      && (!closed ==> p.pc == Writing && p.failed == failed && p.staged == hashed && p.cancelled == cancelled && !p.ok)
    }

    method Write(chunk: Bytes) returns (ok: bool)
      requires Valid()
      modifies this, bucket`asked, bucket`files
      ensures Valid() && closed == old(closed) && cancelled == old(cancelled)
      ensures bucket.Came(old(bucket.Now(p)), p)
      ensures !closed ==> p.given == old(p.given) + chunk
      ensures ok ==> !closed && hashed == old(hashed) + chunk && failed == old(failed)
      ensures !ok && !closed ==> failed || cancelled
    {
      hide Reaches, Take, Bucket.AllOk;
      ghost var m, r := bucket.Now(p), bucket.State();
      bucket.CameStart(p);
      if closed {
        return false;
      }
      if cancelled {
        Advance(bucket.c, r, p, r, p, bucket.AllOk(bucket.asked, bucket.asked), Chunk(chunk, true, 0));
        p := p.(given := p.given + chunk);
        return false;
      }
      var o, n := bucket.Next();
      var got := if o == Ok then chunk else Take(chunk, n);
      bucket.files := bucket.files[Temp(path, tag) := Data(hashed + got)];
      hashed := hashed + got;
      if o != Ok {
        failed := true;
      }
      p := bucket.CameNext(m, r, p, Chunk(chunk, o == Ok, n));
      ok := o == Ok;
    }

    /** Close of a writer, with or without a sidecar. */
    method Close() returns (ok: bool)
      requires Valid()
      modifies this, bucket`asked, bucket`files, bucket`posixRenameUnsupported
      ensures Valid() && closed
      ensures bucket.Came(old(bucket.Now(p)), p)
      ensures if old(closed) then !ok && bucket.State() == old(bucket.State()) else ok == p.ok
      ensures p.given == old(p.given)
      ensures ok ==> old(!failed && !cancelled && (contentMD5 == [] || contentMD5 == bucket.c.hash(hashed)))
    {
      hide Reaches, ProcStep, Bucket.AllOk;
      ghost var m, r := bucket.Now(p), bucket.State();
      bucket.CameStart(p);
      if closed {
        return false;
      }
      closed := true;
      var closeErr, n := bucket.Next();
      var sum := bucket.c.hash(hashed);
      CloseIs(bucket.c, r, p, closeErr, n);
      p := bucket.CameNext(m, r, p, Go(closeErr, n));
      if failed || closeErr != Ok || cancelled || (contentMD5 != [] && contentMD5 != sum) {
        RemoveTemps(m);
        return false;
      }
      if bucket.c.sidecars {
        ok := StageSidecar(sum, m);
      } else {
        ok := CommitFiles(m);
      }
    }

    /** The sidecar next to the staged blob, and then the renaming. */
    method StageSidecar(sum: Bytes, ghost m: Moment) returns (ok: bool)
      requires p.job == Job.Write(path, meta, contentMD5, ifNotExist) && p.tag == tag && p.hasTemp && !p.ok
      requires p.pc == StageAttrs && bucket.c.sidecars && !p.cancelled && p.attrs == Attrs(meta, sum)
      requires bucket.Came(m, p)
      modifies this`p, bucket`asked, bucket`files, bucket`posixRenameUnsupported
      ensures p.job == old(p.job) && p.given == old(p.given) && p.tag == tag && p.hasTemp && p.pc == Done && ok == p.ok
      ensures bucket.Came(m, p)
    {
      hide Bucket.Came;
      ok, p := bucket.SetAttrs(TempSidecar(path, tag), Attrs(meta, sum), m, p);
      if !ok {
        RemoveTemps(m);
        return false;
      }
      ok := CommitFiles(m);
    }

    /** The renaming of the blob and its sidecar at the end of Close. */
    method CommitFiles(ghost m: Moment) returns (ok: bool)
      requires p.job == Job.Write(path, meta, contentMD5, ifNotExist) && p.tag == tag && p.hasTemp && !p.ok
      requires p.pc == Commit(false, FirstStage(ifNotExist)) && bucket.Came(m, p)
      modifies this`p, bucket`asked, bucket`files, bucket`posixRenameUnsupported
      ensures p.job == old(p.job) && p.given == old(p.given) && p.tag == tag && p.hasTemp && p.pc == Done && ok == p.ok
      ensures bucket.Came(m, p)
    {
      hide Bucket.Came;
      ok := bucket.CommitRename(Temp(path, tag), Blob(path), ifNotExist, m, p);
      p := AfterRename(bucket.c, p, ok);
      if !ok {
        RemoveTemps(m);
        return false;
      }
      if bucket.c.sidecars {
        ok := bucket.CommitRename(TempSidecar(path, tag), Sidecar(path), false, m, p);
        p := AfterRename(bucket.c, p, ok);
      }
    }

    /** The deferred removals of a Close that has not committed. */
    method RemoveTemps(ghost m: Moment)
      requires p.job == Job.Write(path, meta, contentMD5, ifNotExist) && p.tag == tag && p.hasTemp
      requires p.pc == (if bucket.c.sidecars then DropAttrs else DropTemp) && bucket.Came(m, p)
      modifies this`p, bucket`asked, bucket`files
      ensures p == Finish(old(p), false) && bucket.Came(m, p)
    {
      hide Reaches, ProcStep, Bucket.AllOk, SftpFiles.Remove, Apply;
      ghost var r := bucket.State();
      if bucket.c.sidecars {
        var _, _, o := bucket.Remove(TempSidecar(path, tag));
        DropAttrsIs(bucket.c, r, p, o);
        p := bucket.CameNext(m, r, p, Go(o, 0));
      }
      r := bucket.State();
      var _, _, o := bucket.Remove(Temp(path, tag));
      DropTempIs(bucket.c, r, p, o);
      p := bucket.CameNext(m, r, p, Go(o, 0));
    }
  }

  // ---- the bucket's other methods ----

  /** Opens a new temporary file, exclusively, with the clock in its name. */
  method OpenTemp(bucket: Bucket, key: string) returns (ok: bool, tag: nat, ghost o: Outcome, ghost n: nat)
    modifies bucket`asked, bucket`files, bucket`clock
    ensures bucket.asked == old(bucket.asked) + 1 && (o, n) == bucket.answers(old(bucket.asked))
    ensures var r := old(bucket.State());
            var done := if Temp(key, r.clock + n) in r.files then None else Some(r.files[Temp(key, r.clock + n) := Data([])]);
            && tag == r.clock + n && ok == Worked(o, done)
            && bucket.State() == Apply(r.(clock := r.clock + n + 1), o, done)
  {
    var o1, n1 := bucket.Next();
    tag, o, n := bucket.clock + n1, o1, n1;
    bucket.clock := tag + 1;
    var done := if Temp(key, tag) in bucket.files then None else Some(bucket.files[Temp(key, tag) := Data([])]);
    ok := Worked(o1, done);
    bucket.Perform(o1, done);
  }

  lemma NotOpened(r: Remote, key: string, o: Outcome, n: nat)
    ensures var path := Temp(key, r.clock + n);
            var done := if path in r.files then None else Some(r.files[path := Data([])]);
            !Worked(o, done) ==> o != Ok || !Fresh(r)
  {
    var path := Temp(key, r.clock + n);
    assert IsTemp(path) && path.tag >= r.clock;
  }

  /** NewTypedWriter. */
  method NewTypedWriter(bucket: Bucket, key: string, meta: string, contentMD5: Bytes, ifNotExist: bool)
      returns (w: Writer?, ghost p: Proc)
    modifies bucket`asked, bucket`files, bucket`clock
    ensures bucket.Came(old(bucket.Now(NewProc(Job.Write(key, meta, contentMD5, ifNotExist)))), p)
    ensures w == null ==>
              p.pc == Done && !p.ok && (!bucket.AllOk(old(bucket.asked), bucket.asked) || !Fresh(old(bucket.State())))
    ensures w != null ==>
              && fresh(w) && w.Valid() && !w.closed && !w.cancelled
              && w.bucket == bucket && w.p == p && w.path == key && p.given == []
  {
    hide Reaches, Apply, Fresh, Worked;
    p := NewProc(Job.Write(key, meta, contentMD5, ifNotExist));
    ghost var m, r := bucket.Now(p), bucket.State();
    bucket.CameStart(p);
    var ok, tag, o, n := OpenTemp(bucket, key);
    NotOpened(r, key, o, n);
    p := bucket.CameNext(m, r, p, Go(o, n));
    w := null;
    if ok {
      w := new Writer(bucket, key, tag, meta, contentMD5, ifNotExist, p);
    }
  }

  /** Delete. */
  method Delete(bucket: Bucket, key: string) returns (ok: bool, ghost p: Proc)
    modifies bucket`asked, bucket`files
    ensures bucket.Came(old(bucket.Now(NewProc(Job.Delete(key)))), p)
    ensures p.pc == Done && ok == p.ok
    ensures ok ==> Blob(key) !in bucket.files
  {
    hide Reaches, Bucket.AllOk;
    p := NewProc(Job.Delete(key));
    ghost var m, r := bucket.Now(p), bucket.State();
    bucket.CameStart(p);
    var answered, was, o := bucket.Remove(Blob(key));
    p := bucket.CameNext(m, r, p, Go(o, 0));
    if !answered || !was {
      return false, p;
    }
    r := bucket.State();
    var _, _, o1 := bucket.Remove(Sidecar(key));
    p := bucket.CameNext(m, r, p, Go(o1, 0));
    ok := true;
  }

  /** The removals of a Copy that fails. */
  method DropCopy(bucket: Bucket, key: string, tag: nat, sidecar: bool, ghost m: Moment, ghost p: Proc)
      returns (ghost p': Proc)
    requires p.job.Copy? && p.job.key == key && p.tag == tag
    requires p.pc == (if sidecar then DropAttrs else DropTemp) && bucket.Came(m, p)
    modifies bucket`asked, bucket`files
    ensures p' == Finish(p, false) && bucket.Came(m, p')
  {
    hide Reaches, ProcStep, Bucket.AllOk, SftpFiles.Remove, Apply;
    p' := p;
    ghost var r := bucket.State();
    if sidecar {
      var _, _, o := bucket.Remove(TempSidecar(key, tag));
      DropAttrsIs(bucket.c, r, p', o);
      p' := bucket.CameNext(m, r, p', Go(o, 0));
    }
    r := bucket.State();
    var _, _, o := bucket.Remove(Temp(key, tag));
    DropTempIs(bucket.c, r, p', o);
    p' := bucket.CameNext(m, r, p', Go(o, 0));
  }

  /** Copy. */
  method Copy(bucket: Bucket, dst: string, src: string) returns (ok: bool, ghost p: Proc)
    modifies bucket`asked, bucket`files, bucket`clock, bucket`posixRenameUnsupported
    ensures bucket.Came(old(bucket.Now(NewProc(Job.Copy(dst, src)))), p)
    ensures p.pc == Done && ok == p.ok
  {
    hide Reaches, ProcStep, Apply, Bucket.AllOk, Worked;
    p := NewProc(Job.Copy(dst, src));
    ghost var m, r := bucket.Now(p), bucket.State();
    bucket.CameStart(p);
    var o, _ := bucket.Next();
    CopyOpenIs(bucket.c, r, p, o);
    p := bucket.CameNext(m, r, p, Go(o, 0));
    if o != Ok || Blob(src) !in bucket.files || !bucket.files[Blob(src)].Data? {
      return false, p;
    }
    var data := bucket.files[Blob(src)].bytes;
    var created, tag, o1, n1 := OpenTemp(bucket, dst);
    CopyTempIs(bucket.c, r, p, o1, n1);
    p := bucket.CameNext(m, r, p, Go(o1, n1));
    if !created {
      return false, p;
    }
    ok, p := CopyData(bucket, dst, src, tag, data, m, p);
  }

  /** The bytes, into the temporary file. */
  method CopyData(bucket: Bucket, dst: string, src: string, tag: nat, data: Bytes, ghost m: Moment, ghost p0: Proc)
      returns (ok: bool, ghost p: Proc)
    requires p0.job == Job.Copy(dst, src) && p0.tag == tag && p0.given == data && !p0.cancelled && !p0.ok
    requires p0.pc == CopyBytes && bucket.Came(m, p0)
    modifies bucket`asked, bucket`files, bucket`posixRenameUnsupported
    ensures bucket.Came(m, p)
    ensures p.pc == Done && ok == p.ok
  {
    hide Reaches, ProcStep, Take, Bucket.AllOk;
    ghost var r := bucket.State();
    var o, n := bucket.Next();
    bucket.files := bucket.files[Temp(dst, tag) := Data(if o == Ok then data else Take(data, n))];
    CopyBytesIs(bucket.c, r, p0, o, n);
    p := bucket.CameNext(m, r, p0, Go(o, n));
    if o != Ok {
      p := DropCopy(bucket, dst, tag, false, m, p);
      return false, p;
    }
    if bucket.c.sidecars {
      ok, p := CopySidecar(bucket, dst, src, tag, m, p);
    } else {
      ok, p := CopyCommit(bucket, dst, tag, m, p);
    }
  }

  /** The attributes of the source, read after its bytes. */
  method CopySidecar(bucket: Bucket, dst: string, src: string, tag: nat, ghost m: Moment, ghost p0: Proc)
      returns (ok: bool, ghost p: Proc)
    requires p0.job == Job.Copy(dst, src) && p0.tag == tag && !p0.cancelled && !p0.ok
    requires p0.pc == CopyAttrs && bucket.Came(m, p0)
    modifies bucket`asked, bucket`files, bucket`posixRenameUnsupported
    ensures bucket.Came(m, p)
    ensures p.pc == Done && ok == p.ok
  {
    hide Reaches, ProcStep, Bucket.AllOk;
    ghost var r := bucket.State();
    var attrs, o := bucket.GetAttrs(src);
    ReadAttrsIs(bucket.c, r, p0, o);
    p := bucket.CameNext(m, r, p0, Go(o, 0));
    if attrs.None? {
      p := DropCopy(bucket, dst, tag, false, m, p);
      return false, p;
    }
    ok, p := StageSidecar(bucket, dst, tag, attrs.value, m, p);
  }

  method StageSidecar(bucket: Bucket, dst: string, tag: nat, attrs: File, ghost m: Moment, ghost p0: Proc)
      returns (ok: bool, ghost p: Proc)
    requires p0.job.Copy? && p0.job.key == dst && p0.tag == tag && p0.attrs == attrs && !p0.cancelled && !p0.ok
    requires p0.pc == StageAttrs && bucket.Came(m, p0)
    modifies bucket`asked, bucket`files, bucket`posixRenameUnsupported
    ensures bucket.Came(m, p)
    ensures p.pc == Done && ok == p.ok
  {
    hide Bucket.Came;
    ok, p := bucket.SetAttrs(TempSidecar(dst, tag), attrs, m, p0);
    if !ok {
      p := DropCopy(bucket, dst, tag, false, m, p);
      return false, p;
    }
    ok, p := CopyCommit(bucket, dst, tag, m, p);
  }

  /** And the renaming of both. */
  method CopyCommit(bucket: Bucket, dst: string, tag: nat, ghost m: Moment, ghost p0: Proc)
      returns (ok: bool, ghost p: Proc)
    requires p0.job.Copy? && p0.job.key == dst && p0.tag == tag && !p0.ok && p0.pc == Commit(false, Posix)
    requires bucket.Came(m, p0)
    modifies bucket`asked, bucket`files, bucket`posixRenameUnsupported
    ensures bucket.Came(m, p)
    ensures p.pc == Done && ok == p.ok
  {
    hide Bucket.Came;
    ok := bucket.CommitRename(Temp(dst, tag), Blob(dst), false, m, p0);
    p := AfterRename(bucket.c, p0, ok);
    if !ok {
      p := DropCopy(bucket, dst, tag, bucket.c.sidecars, m, p);
      return false, p;
    }
    if !bucket.c.sidecars {
      return true, p;
    }
    ok := bucket.CommitRename(TempSidecar(dst, tag), Sidecar(dst), false, m, p);
    p := AfterRename(bucket.c, p, ok);
  }

  /** So what is proved of calls holds of these objects, when nothing else goes on: what
      one that succeeds leaves; and if all answers are good, when it does, and that it
      changes nothing else, and if it fails nothing at all. */
  lemma CallGives(c: Config, r: Remote, j: Job, r': Remote, p: Proc, good: bool)
    requires Reaches(c, r, NewProc(j), r', p, good) && p.pc == Done
    requires forall k :: Blob(k) in r.files ==> r.files[Blob(k)].Data?
    ensures p.ok ==> HasDone(c, r.files, r'.files, j, p.given)
    ensures p.ok && c.sidecars && Consistent(c, r.files) ==> Consistent(c, r'.files)
    ensures Fresh(r) && good ==> r'.files == if p.ok then Afterwards(c, r.files, j, p.given) else r.files
    ensures Fresh(r) && good && j.Write? ==>
              (p.ok <==> && (j.contentMD5 == [] || j.contentMD5 == c.hash(p.given))
                         && (j.ifNotExist ==> Blob(j.key) !in r.files))
    ensures Fresh(r) && good && j.Copy? ==>
              (p.ok <==> && Blob(j.src) in r.files
                         && (c.sidecars && Sidecar(j.src) in r.files ==> r.files[Sidecar(j.src)].Attrs?))
    ensures Fresh(r) && good && j.Delete? ==> (p.ok <==> Blob(j.key) in r.files)
  {
    hide ProcRun, HasDone, Consistent, Fresh, AllGood, Afterwards;
    var es :| ProcRun(c, r, NewProc(j), es) == (r', p) && (good ==> AllGood(es));
    if p.ok {
      CallThatSucceeds(c, r, j, es);
      if c.sidecars && Consistent(c, r.files) {
        ConsistentKept(c, r, j, es);
      }
    }
    if Fresh(r) && good {
      GoodCallDoes(c, r, j, es);
      match j
      case Write(key, meta, contentMD5, ifNotExist) => WriteSucceedsIff(c, r, key, meta, contentMD5, ifNotExist, es);
      case Copy(key, src) => CopySucceedsIff(c, r, key, src, es);
      case Delete(key) => DeleteSucceedsIff(c, r, key, es);
    }
  }

  /** A write from NewTypedWriter to Close.  If it returns no error, the blob has all
      bytes and its sidecar their MD5.  As long as the server gives good answers, it
      returns one exactly if the MD5 is not the one asked for or the key is taken that is
      to be free, and then it leaves everything as it was; else it puts blob and sidecar
      into place and changes nothing else. */
  method WriteAll(bucket: Bucket, key: string, meta: string, contentMD5: Bytes, ifNotExist: bool, data: Bytes)
      returns (ok: bool)
    requires forall k :: Blob(k) in bucket.files ==> bucket.files[Blob(k)].Data?
    modifies bucket`asked, bucket`files, bucket`clock, bucket`posixRenameUnsupported
    ensures var job := Job.Write(key, meta, contentMD5, ifNotExist);
            && (ok ==> HasDone(bucket.c, old(bucket.files), bucket.files, job, data))
            && (ok && bucket.c.sidecars && Consistent(bucket.c, old(bucket.files)) ==> Consistent(bucket.c, bucket.files))
    ensures (forall i :: old(bucket.asked) <= i < bucket.asked ==> bucket.answers(i).0 == Ok)
            && (forall q :: q in old(bucket.files) && (q.Temp? || q.TempSidecar?) ==> q.tag < old(bucket.clock)) ==>
              && (ok <==> && (contentMD5 == [] || contentMD5 == bucket.c.hash(data))
                          && (ifNotExist ==> Blob(key) !in old(bucket.files)))
              && bucket.files == if !ok then old(bucket.files)
                                 else if !bucket.c.sidecars then old(bucket.files)[Blob(key) := Data(data)]
                                 else old(bucket.files)[Blob(key) := Data(data)]
                                                       [Sidecar(key) := Attrs(meta, bucket.c.hash(data))]
  {
    hide Reaches, HasDone, Consistent;
    ghost var job := Job.Write(key, meta, contentMD5, ifNotExist);
    ghost var m := bucket.Now(NewProc(job));
    var w, p := NewTypedWriter(bucket, key, meta, contentMD5, ifNotExist);
    if w == null {
      return false;
    }
    ghost var m1 := bucket.Now(w.p);
    var _ := w.Write(data);
    bucket.CameAll(m, m1, w.p);
    ghost var m2 := bucket.Now(w.p);
    ok := w.Close();
    bucket.CameAll(m, m2, w.p);
    assert [] + data == data;
    CallGives(bucket.c, m.remote, job, bucket.State(), w.p, bucket.AllOk(m.asked, bucket.asked));
  }
}
