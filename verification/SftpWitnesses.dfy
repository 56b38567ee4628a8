/** Runs that show what else can be left behind (blob/sftpblob/sftpblob.go:599-618,
    671-685, 1047-1206). */
module SftpWitnesses {
  import opened SftpPaths
  import opened SftpFiles
  import opened SftpCommit
  import opened SftpConditional
  import opened SftpQuiet

  const GO := Go(Ok, 0)

  function Nothing(c: Config): File { Attrs("", c.hash([])) }

  /** A writer of nothing whose staged file may be committed. */
  function Writer(c: Config, ifNotExist: bool, tag: nat, pc: Pc, won: bool): Proc {
    Proc(Write("k", "", [], ifNotExist), pc, true, tag, [], [], Nothing(c), false, false, true, won, false)
  }

  function Starting(ifNotExist: bool): Proc { NewProc(Write("k", "", [], ifNotExist)) }

  function Opened(r: Remote): Remote {
    r.(clock := r.clock + 1, files := r.files[Temp("k", r.clock) := Data([])])
  }

  lemma Opens(c: Config, r: Remote, ifNotExist: bool)
    requires c.sidecars && Temp("k", r.clock) !in r.files
    ensures var (r1, p1) := ProcStep(c, r, Starting(ifNotExist), GO);
            r1 == Opened(r) && ProcStep(c, r1, p1, GO) == (r1, Writer(c, ifNotExist, r.clock, StageAttrs, false))
  {
  }

  /** setAttrs, in three steps. */
  lemma Stages(c: Config, r: Remote, ifNotExist: bool, tag: nat)
    ensures var s1 := ProcStep(c, r, Writer(c, ifNotExist, tag, StageAttrs, false), GO);
            var s2 := ProcStep(c, s1.0, s1.1, GO);
            ProcStep(c, s2.0, s2.1, GO)
            == (r.(files := r.files[TempSidecar("k", tag) := Nothing(c)]),
                Writer(c, ifNotExist, tag, Commit(false, FirstStage(ifNotExist)), false))
  {
    assert r.files[TempSidecar("k", tag) := Torn][TempSidecar("k", tag) := Nothing(c)]
        == r.files[TempSidecar("k", tag) := Nothing(c)];
  }

  /** From the attempt of posix-rename to the plain one, the old file being removed. */
  lemma FallsBack(c: Config, r: Remote, tag: nat, side: bool, won: bool)
    requires !c.posix
    ensures var dst := if side then Sidecar("k") else Blob("k");
            var (r1, p1) := ProcStep(c, r, Writer(c, false, tag, Commit(side, Posix), won), GO);
            && r1 == r.(latch := true)
            && ProcStep(c, r1, p1, GO)
               == (r1.(files := r.files - {dst}), Writer(c, false, tag, Commit(side, Fallback), won))
  {
    assert (if side then Sidecar("k") else Blob("k")) !in r.files ==>
             r.files - {if side then Sidecar("k") else Blob("k")} == r.files;
  }

  lemma BlobMoves(c: Config, r: Remote, tag: nat)
    requires c.sidecars && Temp("k", tag) in r.files && Blob("k") !in r.files
    ensures ProcStep(c, r, Writer(c, false, tag, Commit(false, Fallback), false), GO)
         == (r.(files := Move(r.files, Temp("k", tag), Blob("k"))), Writer(c, false, tag, Commit(true, Posix), true))
  {
  }

  lemma SidecarMoves(c: Config, r: Remote, tag: nat)
    requires TempSidecar("k", tag) in r.files && Sidecar("k") !in r.files
    ensures var (r', p') := ProcStep(c, r, Writer(c, false, tag, Commit(true, Fallback), true), GO);
            && r' == r.(files := Move(r.files, TempSidecar("k", tag), Sidecar("k")))
            && p'.pc == Done && p'.ok && p'.job.key == "k"
  {
  }

  lemma SidecarRefused(c: Config, r: Remote, tag: nat)
    requires !c.clobbers && Sidecar("k") in r.files
    ensures var (r', p') := ProcStep(c, r, Writer(c, false, tag, Commit(true, Fallback), true), GO);
            r' == r && p'.pc == Done && !p'.ok && p'.job.key == "k"
  {
  }

  /** A writer of nothing, run by itself up to the plain rename of its sidecar. */
  ghost predicate ComesToFallback(c: Config, states: seq<(Remote, Proc)>) {
    && |states| == 11
    && (forall n :: 0 <= n < 10 ==> states[n + 1] == ProcStep(c, states[n].0, states[n].1, GO))
    && states[10].1 == Writer(c, false, states[0].0.clock, Commit(true, Fallback), true)
    && states[10].0.clock == states[0].0.clock + 1
    && Sidecar("k") !in states[10].0.files
    && TempSidecar("k", states[0].0.clock) in states[10].0.files
    && (forall n :: n != states[0].0.clock && TempSidecar("k", n) in states[0].0.files ==>
          TempSidecar("k", n) in states[10].0.files)
    && (forall n :: n != states[0].0.clock && Temp("k", n) in states[10].0.files ==> Temp("k", n) in states[0].0.files)
  }

  lemma FirstTen(c: Config, r: Remote) returns (states: seq<(Remote, Proc)>)
    requires !c.posix && c.sidecars && Temp("k", r.clock) !in r.files
    ensures ComesToFallback(c, states) && states[0] == (r, Starting(false))
  {
    hide ProcStep;
    var s0 := (r, Starting(false));
    var s1 := ProcStep(c, s0.0, s0.1, GO);
    Opens(c, r, false);
    var s2 := ProcStep(c, s1.0, s1.1, GO);
    Stages(c, s2.0, false, r.clock);
    var s3 := ProcStep(c, s2.0, s2.1, GO);
    var s4 := ProcStep(c, s3.0, s3.1, GO);
    var s5 := ProcStep(c, s4.0, s4.1, GO);
    FallsBack(c, s5.0, r.clock, false, false);
    var s6 := ProcStep(c, s5.0, s5.1, GO);
    var s7 := ProcStep(c, s6.0, s6.1, GO);
    BlobMoves(c, s7.0, r.clock);
    var s8 := ProcStep(c, s7.0, s7.1, GO);
    FallsBack(c, s8.0, r.clock, true, true);
    var s9 := ProcStep(c, s8.0, s8.1, GO);
    var s10 := ProcStep(c, s9.0, s9.1, GO);
    states := [s0, s1, s2, s3, s4, s5, s6, s7, s8, s9, s10];
  }

  /** What one writer does by itself, as part of a run. */
  function Alongside(i: nat, steps: seq<(Remote, Proc)>, other: Proc): seq<State> {
    seq(|steps|, n requires 0 <= n < |steps| =>
      State(steps[n].0, if i == 0 then [steps[n].1, other] else [other, steps[n].1]))
  }

  lemma AlongsideSteps(c: Config, i: nat, steps: seq<(Remote, Proc)>, other: Proc)
    requires i < 2 && forall n :: 0 <= n < |steps| - 1 ==> steps[n + 1] == ProcStep(c, steps[n].0, steps[n].1, GO)
    ensures forall n :: 0 <= n < |steps| - 1 ==>
              Alongside(i, steps, other)[n + 1] == Step(c, Alongside(i, steps, other)[n], i, GO)
  {
    hide ProcStep;
  }

  /** Where posix-rename is missing and a plain rename is refused by a taken destination,
      two writers can get good answers only, and still leave a temporary sidecar: the one
      that is overtaken between removing the old sidecar and renaming its own. */
  lemma OvertakenSidecarStays(c: Config)
    requires !c.posix && !c.clobbers && c.sidecars
    ensures exists s: State, es: seq<(nat, Event)> ::
              && IsStart(s) && s.remote.files == map[] && AllGood(s.procs, es, "k")
              && |Run(c, s, es).procs| == 2 && AtRest(Run(c, s, es).procs, "k")
              && TempSidecar("k", 0) in Run(c, s, es).remote.files
  {
    hide ProcStep, Run;
    var first := FirstTen(c, Remote(map[], false, 0));
    var (r10, p10) := first[10];
    var second := FirstTen(c, r10);
    var (r20, q10) := second[10];
    var (r21, q11) := ProcStep(c, r20, q10, GO);
    SidecarMoves(c, r20, 1);
    var (r22, p11) := ProcStep(c, r21, p10, GO);
    SidecarRefused(c, r21, 0);
    AlongsideSteps(c, 0, first, Starting(false));
    AlongsideSteps(c, 1, second, p10);
    var states1, states2 := Alongside(0, first, Starting(false)), Alongside(1, second, p10);
    var states3 := [State(r20, [p10, q10]), State(r21, [p10, q11]), State(r22, [p11, q11])];
    var es1: seq<(nat, Event)> := seq(10, _ => (0, GO));
    var es2: seq<(nat, Event)> := seq(10, _ => (1, GO));
    var es3: seq<(nat, Event)> := [(1, GO), (0, GO)];
    RunThrough(c, states1, es1);
    RunThrough(c, states2, es2);
    RunThrough(c, states3, es3);
    RunAppend(c, states1[0], es1, es2);
    RunAppend(c, states1[0], es1 + es2, es3);
    assert IsStart(states1[0]) && AllGood(states1[0].procs, es1 + es2 + es3, "k");
  }

  lemma {:induction false} RunAppend(c: Config, s: State, es: seq<(nat, Event)>, ds: seq<(nat, Event)>)
    ensures Run(c, s, es + ds) == Run(c, Run(c, s, es), ds)
  {
    hide Step;
    if ds == [] {
      assert es + ds == es;
    } else {
      var n := |ds| - 1;
      assert (es + ds)[..|es + ds| - 1] == es + ds[..n] && (es + ds)[|es + ds| - 1] == ds[n];
      RunAppend(c, s, es, ds[..n]);
    }
  }

  /** A conditional writer of nothing, up to the renaming of its sidecar. */
  lemma ConditionalLinks(c: Config, r: Remote, tag: nat)
    requires c.sidecars && Temp("k", tag) in r.files && Blob("k") !in r.files
    ensures var (r1, p1) := ProcStep(c, r, Writer(c, true, tag, Commit(false, Stat), false), GO);
            && r1 == r
            && ProcStep(c, r1, p1, GO)
               == (r.(files := Move(r.files, Temp("k", tag), Blob("k"))), Writer(c, true, tag, Commit(true, Posix), true))
  {
  }

  lemma PosixFails(c: Config, r: Remote, tag: nat)
    requires !r.latch
    ensures var (r', p') := ProcStep(c, r, Writer(c, true, tag, Commit(true, Posix), true), Go(Fail, 0));
            r' == r && p' == Finish(Writer(c, true, tag, Commit(true, Posix), true), false)
  {
  }

  /** Nor does the sidecar always go to the winner: if its renaming fails, the winner of
      the conditional writers has the blob without one, though every answer was heard. */
  lemma WinnerWithoutSidecar(c: Config)
    requires !c.clobbers && c.sidecars
    ensures exists s: State, es: seq<(nat, Event)> ::
              && IsStart(s) && OnlyConditional(s.procs, "k") && Heard(s.procs, es, "k")
              && AtRest(Run(c, s, es).procs, "k")
              && IsWinner(c, s.remote.files, Run(c, s, es), "k", 0)
              && Sidecar("k") !in Run(c, s, es).remote.files
  {
    hide ProcStep, Run;
    var r, p := Remote(map[], false, 0), Starting(true);
    var s1 := ProcStep(c, r, p, GO);
    Opens(c, r, true);
    var s2 := ProcStep(c, s1.0, s1.1, GO);
    Stages(c, s2.0, true, 0);
    var s3 := ProcStep(c, s2.0, s2.1, GO);
    var s4 := ProcStep(c, s3.0, s3.1, GO);
    var s5 := ProcStep(c, s4.0, s4.1, GO);
    ConditionalLinks(c, s5.0, 0);
    var s6 := ProcStep(c, s5.0, s5.1, GO);
    var s7 := ProcStep(c, s6.0, s6.1, GO);
    PosixFails(c, s7.0, 0);
    var s8 := ProcStep(c, s7.0, s7.1, Go(Fail, 0));
    var steps := [(r, p), s1, s2, s3, s4, s5, s6, s7, s8];
    var es: seq<(nat, Event)> :=
      [(0, GO), (0, GO), (0, GO), (0, GO), (0, GO), (0, GO), (0, GO), (0, Go(Fail, 0))];
    var states := Alone(steps);
    AloneSteps(c, steps, es);
    RunThrough(c, states, es);
    assert IsStart(states[0]) && OnlyConditional(states[0].procs, "k") && Heard(states[0].procs, es, "k");
    assert IsWinner(c, map[], states[8], "k", 0);
  }

  /** What a call does that is the only one. */
  function Alone(steps: seq<(Remote, Proc)>): seq<State> {
    seq(|steps|, n requires 0 <= n < |steps| => State(steps[n].0, [steps[n].1]))
  }

  lemma AloneSteps(c: Config, steps: seq<(Remote, Proc)>, es: seq<(nat, Event)>)
    requires |steps| == |es| + 1 && forall n :: 0 <= n < |es| ==> es[n].0 == 0
    requires forall n :: 0 <= n < |es| ==> steps[n + 1] == ProcStep(c, steps[n].0, steps[n].1, es[n].1)
    ensures forall n :: 0 <= n < |es| ==> Alone(steps)[n + 1] == Step(c, Alone(steps)[n], es[n].0, es[n].1)
  {
    hide ProcStep;
  }

  /** A copy of the empty blob at "a", in the course of setAttrs. */
  function Copier(pc: Pc, attrs: File): Proc {
    Proc(Copy("b", "a"), pc, true, 0, [], [], attrs, false, false, true, false, false)
  }

  lemma CopyComesToAttrs(c: Config, r: Remote)
    requires c.sidecars && r.clock == 0 && r.files == map[Blob("a") := Data([])]
    ensures var s1 := ProcStep(c, r, NewProc(Copy("b", "a")), GO);
            var s2 := ProcStep(c, s1.0, s1.1, GO);
            var s3 := ProcStep(c, s2.0, s2.1, GO);
            && !s1.1.hasTemp && s2.1.pc == CopyBytes
            && s3.0.files == map[Blob("a") := Data([]), Temp("b", 0) := Data([])]
            && s3.1 == Copier(CopyAttrs, Torn)
  {
  }

  lemma CopyFailsToClose(c: Config, r: Remote)
    requires r.files == map[Blob("a") := Data([]), Temp("b", 0) := Data([])]
    ensures var s4 := ProcStep(c, r, Copier(CopyAttrs, Torn), GO);
            var s5 := ProcStep(c, s4.0, s4.1, GO);
            var s6 := ProcStep(c, s5.0, s5.1, GO);
            var s7 := ProcStep(c, s6.0, s6.1, Go(Fail, 0));
            var s8 := ProcStep(c, s7.0, s7.1, GO);
            && s4.1.pc == StageAttrs && s5.1.pc == EncodeAttrs && s6.1.pc == CloseAttrs && s7.1.pc == DropTemp
            && s8.1.pc == Done && !s8.1.won && !s8.1.ok && TempSidecarOf(s8.1) in s8.0.files
  {
  }

  lemma CleanThrough(c: Config, states: seq<State>, es: seq<(nat, Event)>, j: nat)
    requires |states| == |es| + 1
    requires forall n :: 0 <= n < |es| ==> states[n + 1] == Step(c, states[n], es[n].0, es[n].1)
    requires forall n :: 0 <= n < |es| && j < |states[n].procs| ==> Clean(states[n].procs[j], es[n].1)
    ensures CleanRun(c, states[0], es, j)
  {
    hide Step, Clean, Run;
    forall n | 0 <= n < |es| && es[n].0 == j && j < |Run(c, states[0], es[..n]).procs|
      ensures Clean(Run(c, states[0], es[..n]).procs[j], es[n].1)
    {
      RunThrough(c, states[..n + 1], es[..n]);
    }
  }

  lemma CopySteps(c: Config) returns (steps: seq<(Remote, Proc)>, es: seq<(nat, Event)>)
    requires c.sidecars
    ensures |steps| == 9 && |es| == 8 && forall n :: 0 <= n < 8 ==> es[n].0 == 0
    ensures forall n :: 0 <= n < 8 ==> steps[n + 1] == ProcStep(c, steps[n].0, steps[n].1, es[n].1)
    ensures forall n :: 0 <= n < 8 ==> Clean(steps[n].1, es[n].1)
    ensures steps[0] == (Remote(map[Blob("a") := Data([])], false, 0), NewProc(Copy("b", "a")))
    ensures var (r, p) := steps[8]; p.pc == Done && !p.won && !p.ok && TempSidecarOf(p) in r.files
  {
    hide ProcStep;
    var r, p, fails := Remote(map[Blob("a") := Data([])], false, 0), NewProc(Copy("b", "a")), Go(Fail, 0);
    var s1 := ProcStep(c, r, p, GO);
    var s2 := ProcStep(c, s1.0, s1.1, GO);
    var s3 := ProcStep(c, s2.0, s2.1, GO);
    CopyComesToAttrs(c, r);
    var s4 := ProcStep(c, s3.0, s3.1, GO);
    var s5 := ProcStep(c, s4.0, s4.1, GO);
    var s6 := ProcStep(c, s5.0, s5.1, GO);
    var s7 := ProcStep(c, s6.0, s6.1, fails);
    var s8 := ProcStep(c, s7.0, s7.1, GO);
    CopyFailsToClose(c, s3.0);
    steps := [(r, p), s1, s2, s3, s4, s5, s6, s7, s8];
    es := [(0, GO), (0, GO), (0, GO), (0, GO), (0, GO), (0, GO), (0, fails), (0, GO)];
  }

  /** A copy whose temporary sidecar cannot be closed leaves it behind, though all its
      answers were heard, no removal failed, and its blob never came into place. */
  lemma CopyLeavesSidecar(c: Config)
    requires c.sidecars
    ensures exists s: State, es: seq<(nat, Event)> ::
              && IsStart(s) && CleanRun(c, s, es, 0) && |Run(c, s, es).procs| == 1
              && var p := Run(c, s, es).procs[0];
                 p.pc == Done && !p.won && !p.ok && TempSidecarOf(p) in Run(c, s, es).remote.files
  {
    hide ProcStep, Run, CleanRun, Clean;
    var steps, es := CopySteps(c);
    var states := Alone(steps);
    AloneSteps(c, steps, es);
    hide Step;
    RunThrough(c, states, es);
    CleanThrough(c, states, es, 0);
    assert IsStart(states[0]);
  }
}
