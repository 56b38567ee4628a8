/** Writers, copies and deletes on one SFTP bucket, interleaved at every remote
    operation, with answers that fail or get lost
    (blob/sftpblob/sftpblob.go:836-1206). */
module SftpCommit {
  import opened Strings
  import opened SftpPaths
  import opened SftpFiles

  /** A call of the bucket; key is the path of the blob that it writes or deletes. */
  datatype Job =
    | Write(key: string, meta: string, contentMD5: Bytes, ifNotExist: bool)
    | Copy(key: string, src: string)
    | Delete(key: string)

  datatype Pc =
    | Idle
    | Writing
    | CopyTemp | CopyBytes | CopyAttrs
    | StageAttrs | EncodeAttrs | UndoAttrs | CloseAttrs   // setAttrs of the temporary file
    | Commit(side: bool, stage: Stage)
    | DropAttrs | DropTemp
    | RemoveSidecar
    | Done

  datatype Proc = Proc(
    job: Job,
    pc: Pc,
    hasTemp: bool,       // has a temporary file, named by tag
    tag: nat,
    given: Bytes,       // what the caller passed to Write, or what the copied blob holds
    staged: Bytes,      // what went to the temporary file and into the running hash
    attrs: File,        // what the sidecar is to hold
    failed: bool,
    cancelled: bool,    // the context is; it stays so
    checked: bool,      // the staged file may be committed
    won: bool,          // the blob was renamed into place
    ok: bool)           // no error was returned

  /** What happens next to one call: its next remote operation goes so or so, its
      caller writes a chunk (of which only n bytes go through if it fails), or its
      context is cancelled.  At the opening of a temporary file n is how far the clock
      has moved on. */
  datatype Event = Go(o: Outcome, n: nat) | Chunk(p: Bytes, ok: bool, n: nat) | Cancel

  const DEFAULT_META := "application/octet-stream"

  function Take(s: Bytes, n: nat): Bytes {
    if n <= |s| then s[..n] else s
  }

  predicate MD5Matches(c: Config, j: Job, bytes: Bytes)
    requires j.Write?
  {
    j.contentMD5 == [] || j.contentMD5 == c.hash(bytes)
  }

  function TempOf(p: Proc): Path { Temp(p.job.key, p.tag) }

  function TempSidecarOf(p: Proc): Path { TempSidecar(p.job.key, p.tag) }

  function Finish(p: Proc, ok: bool): Proc { p.(pc := Done, ok := ok) }

  function CleanUp(c: Config, p: Proc): Proc {
    p.(pc := if c.sidecars then DropAttrs else DropTemp)
  }

  function StartCommit(p: Proc): Proc {
    p.(pc := Commit(false, FirstStage(p.job.Write? && p.job.ifNotExist)))
  }

  /** OpenFile with O_EXCL of a new temporary file, named by the clock. */
  function OpenStep(r: Remote, p: Proc, o: Outcome, n: nat, next: Pc): (Remote, Proc) {
    var q := p.(tag := r.clock + n, hasTemp := true);
    var r' := r.(clock := r.clock + n + 1);
    var done := if TempOf(q) in r.files then None else Some(r.files[TempOf(q) := Data([])]);
    (Apply(r', o, done), if Worked(o, done) then q.(pc := next) else Finish(q, false))
  }

  /** Write. */
  function ChunkStep(r: Remote, p: Proc, chunk: Bytes, ok: bool, n: nat): (Remote, Proc) {
    if p.cancelled then (r, p.(given := p.given + chunk))
    else
      var got := if ok then chunk else Take(chunk, n);
      var q := p.(given := p.given + chunk, staged := p.staged + got, failed := p.failed || !ok);
      (r.(files := r.files[TempOf(p) := Data(q.staged)]), q)
  }

  /** The checks of Close, before anything is renamed. */
  function CloseStep(c: Config, r: Remote, p: Proc, o: Outcome): (Remote, Proc)
    requires p.job.Write?
  {
    if p.failed || o != Ok || p.cancelled || !MD5Matches(c, p.job, p.staged) then (r, CleanUp(c, p))
    else
      var q := p.(checked := true, attrs := Attrs(p.job.meta, c.hash(p.staged)));
      (r, if c.sidecars then q.(pc := StageAttrs) else StartCommit(q))
  }

  /** Copy opens its source.  Blobs are replaced, and never written in place, so what the
      handle reads is the blob as it is now. */
  function CopyOpenStep(r: Remote, p: Proc, o: Outcome): (Remote, Proc)
    requires p.job.Copy?
  {
    if o == Ok && Blob(p.job.src) in r.files && r.files[Blob(p.job.src)].Data? then
      (r, p.(given := r.files[Blob(p.job.src)].bytes, pc := CopyTemp))
    else (r, Finish(p, false))
  }

  /** Delete removes the blob first. */
  function DeleteStep(r: Remote, p: Proc, o: Outcome): (Remote, Proc) {
    var done := Remove(r.files, Blob(p.job.key));
    (Apply(r, o, done), if Worked(o, done) then p.(pc := RemoveSidecar) else Finish(p, false))
  }

  /** And then the sidecar; an error is ignored. */
  function RemoveSidecarStep(r: Remote, p: Proc, o: Outcome): (Remote, Proc) {
    (Apply(r, o, Remove(r.files, Sidecar(p.job.key))), Finish(p, true))
  }

  /** io.Copy from the opened source. */
  function CopyBytesStep(c: Config, r: Remote, p: Proc, o: Outcome, n: nat): (Remote, Proc) {
    if p.cancelled then (r, p.(pc := DropTemp))
    else if o != Ok then
      var q := p.(staged := Take(p.given, n), pc := DropTemp);
      (r.(files := r.files[TempOf(p) := Data(q.staged)]), q)
    else
      var q := p.(staged := p.given, checked := true);
      (r.(files := r.files[TempOf(p) := Data(q.staged)]), if c.sidecars then q.(pc := CopyAttrs) else StartCommit(q))
  }

  /** getAttrs of the copied blob; one without a sidecar has default attributes. */
  function ReadAttrs(r: Remote, p: Proc, o: Outcome): Option<File> {
    if o != Ok || p.cancelled || !p.job.Copy? then None
    else if Sidecar(p.job.src) !in r.files then Some(Attrs(DEFAULT_META, []))
    else if r.files[Sidecar(p.job.src)].Attrs? then Some(r.files[Sidecar(p.job.src)])
    else None
  }

  function ReadAttrsStep(r: Remote, p: Proc, o: Outcome): (Remote, Proc) {
    var attrs := ReadAttrs(r, p, o);
    (r, if attrs.Some? then p.(attrs := attrs.value, pc := StageAttrs) else p.(pc := DropTemp))
  }

  /** When setAttrs fails, a copy removes its temporary file only. */
  function NoAttrs(p: Proc): Proc {
    p.(pc := if p.job.Copy? then DropTemp else DropAttrs)
  }

  /** setAttrs of the temporary file: its sidecar is created... */
  function StageAttrsStep(r: Remote, p: Proc, o: Outcome): (Remote, Proc) {
    if p.cancelled then (r, NoAttrs(p))
    else (Apply(r, o, Some(r.files[TempSidecarOf(p) := Torn])), if o == Ok then p.(pc := EncodeAttrs) else NoAttrs(p))
  }

  /** ...written... */
  function EncodeAttrsStep(r: Remote, p: Proc, o: Outcome): (Remote, Proc) {
    (Apply(r, o, Some(r.files[TempSidecarOf(p) := p.attrs])), p.(pc := if o == Ok then CloseAttrs else UndoAttrs))
  }

  /** ...and closed.  A failure to write removes it again, one to close does not. */
  function CloseAttrsStep(r: Remote, p: Proc, o: Outcome): (Remote, Proc) {
    (r, if o == Ok then StartCommit(p) else NoAttrs(p))
  }

  /** A step of renaming the blob. */
  function CommitBlobStep(c: Config, r: Remote, p: Proc, stage: Stage, o: Outcome): (Remote, Proc) {
    var (r', next) := RenameStep(c, r, TempOf(p), Blob(p.job.key), stage, o);
    if next == Renamed then
      (r', if c.sidecars then p.(won := true, pc := Commit(true, FirstStage(false))) else Finish(p.(won := true), true))
    else if next == Refused then (r', CleanUp(c, p))
    else (r', p.(pc := Commit(false, next)))
  }

  /** And after that one of renaming its sidecar; if this fails nothing is cleaned up. */
  function CommitSidecarStep(c: Config, r: Remote, p: Proc, stage: Stage, o: Outcome): (Remote, Proc) {
    var (r', next) := RenameStep(c, r, TempSidecarOf(p), Sidecar(p.job.key), stage, o);
    if next == Renamed then (r', Finish(p, true))
    else if next == Refused then (r', Finish(p, false))
    else (r', p.(pc := Commit(true, next)))
  }

  /** A removal of a temporary file, whose error is ignored. */
  function Drop(r: Remote, path: Path, o: Outcome): Remote {
    Apply(r, o, Remove(r.files, path))
  }

  /** The next step of one call. */
  function ProcStep(c: Config, r: Remote, p: Proc, e: Event): (Remote, Proc) {
    match e
    case Cancel => (r, p.(cancelled := true))
    case Chunk(chunk, ok, n) => if p.pc == Writing then ChunkStep(r, p, chunk, ok, n) else (r, p)
    case Go(o, n) =>
      match p.pc
      case Idle =>
        if p.job.Write? then OpenStep(r, p, o, n, Writing)
        else if p.job.Copy? then CopyOpenStep(r, p, o)
        else DeleteStep(r, p, o)
      case CopyTemp => OpenStep(r, p, o, n, CopyBytes)
      case Writing => if p.job.Write? then CloseStep(c, r, p, o) else (r, p)
      case CopyBytes => CopyBytesStep(c, r, p, o, n)
      case CopyAttrs => ReadAttrsStep(r, p, o)
      case StageAttrs => StageAttrsStep(r, p, o)
      case EncodeAttrs => EncodeAttrsStep(r, p, o)
      case UndoAttrs => (Drop(r, TempSidecarOf(p), o), NoAttrs(p))
      case CloseAttrs => CloseAttrsStep(r, p, o)
      case Commit(side, stage) =>
        if side then CommitSidecarStep(c, r, p, stage, o) else CommitBlobStep(c, r, p, stage, o)
      case DropAttrs => (Drop(r, TempSidecarOf(p), o), p.(pc := DropTemp))
      case DropTemp => (Drop(r, TempOf(p), o), Finish(p, false))
      case RemoveSidecar => RemoveSidecarStep(r, p, o)
      case Done => (r, p)
  }

  datatype State = State(remote: Remote, procs: seq<Proc>)

  /** One event of call i. */
  function Step(c: Config, s: State, i: nat, e: Event): State {
    if i < |s.procs| then
      var (r, p) := ProcStep(c, s.remote, s.procs[i], e);
      State(r, s.procs[i := p])
    else s
  }

  function Run(c: Config, s: State, es: seq<(nat, Event)>): State {
    if es == [] then s
    else Step(c, Run(c, s, es[..|es| - 1]), es[|es| - 1].0, es[|es| - 1].1)
  }

  // ---- what the server's answers to a call are like ----

  predicate IsLost(e: Event) {
    e.Go? && e.o == Lost
  }

  /** A good answer, and no cancellation. */
  predicate IsGood(e: Event) {
    (e.Go? && e.o == Ok) || (e.Chunk? && e.ok)
  }

  /** The last removal of one of a call's temporary files fails. */
  predicate KeepsTemp(p: Proc, e: Event) {
    e.Go? && e.o == Fail && (p.pc == DropAttrs || p.pc == DropTemp || (p.pc == UndoAttrs && p.job.Copy?))
  }

  function NewProc(j: Job): Proc {
    Proc(j, Idle, false, 0, [], [], Torn, false, false, false, false, false)
  }

  /** A bucket with anything in it; what lies there of temporary files is older than
      the clock. */
  predicate IsStart(s: State) {
    && (forall i :: 0 <= i < |s.procs| ==> s.procs[i] == NewProc(s.procs[i].job))
    && (forall q :: q in s.remote.files && (q.Temp? || q.TempSidecar?) ==> q.tag < s.remote.clock)
    && (forall q :: q in s.remote.files && q.Blob? ==> s.remote.files[q].Data?)
  }

  /** Any calls may start together, none of which has done anything, on a server that has
      any blobs, any sidecars, and temporary files that are older. */
  lemma StartIs(files: Files, latch: bool, clock: nat, jobs: seq<Job>)
    requires forall k :: Blob(k) in files ==> files[Blob(k)].Data?
    requires forall k, t: nat :: (Temp(k, t) in files || TempSidecar(k, t) in files) ==> t < clock
    ensures var idle := (j: Job) => Proc(j, Idle, false, 0, [], [], Torn, false, false, false, false, false);
            IsStart(State(Remote(files, latch, clock), seq(|jobs|, i requires 0 <= i < |jobs| => idle(jobs[i]))))
  {
    forall q | q in files
      ensures q.Temp? || q.TempSidecar? ==> q.tag < clock
      ensures q.Blob? ==> files[q].Data?
    {
      assert q.Temp? ==> q == Temp(q.key, q.tag);
      assert q.TempSidecar? ==> q == TempSidecar(q.key, q.tag);
      assert q.Blob? ==> q == Blob(q.key);
    }
  }
}
