/** What holds of every run of the calls on an SFTP bucket: only whole, checked bytes
    ever get to a blob's path, and no temporary file is left behind. */
module SftpRuns {
  import opened Strings
  import opened SftpPaths
  import opened SftpFiles
  import opened SftpCommit

  predicate Same(a: Files, b: Files, q: Path) {
    (q in a <==> q in b) && (q in a ==> a[q] == b[q])
  }

  predicate HoldsTemp(p: Proc) {
    p.pc == Writing || p.pc == CopyBytes || p.pc == CopyAttrs || IsStaging(p.pc) || (p.pc.Commit? && !p.pc.side)
  }

  predicate IsStaging(pc: Pc) {
    pc == StageAttrs || pc == EncodeAttrs || pc == CloseAttrs
  }

  /** The temporary files are what the call thinks they are, and what is about to be
      committed has been checked. */
  predicate ProcOk(c: Config, r: Remote, p: Proc) {
    && (p.hasTemp ==> p.tag < r.clock)
    && ((p.pc == Idle || p.pc == CopyTemp) ==> !p.hasTemp)
    && ((p.pc == DropAttrs || p.pc == DropTemp || p.pc == UndoAttrs) ==> p.hasTemp)
    && (HoldsTemp(p) ==> p.hasTemp && TempOf(p) in r.files && r.files[TempOf(p)] == Data(p.staged))
    && (p.pc.Commit? && p.pc.side ==> c.sidecars)
    && (p.pc == CloseAttrs || (p.pc.Commit? && c.sidecars) ==>
          p.hasTemp && TempSidecarOf(p) in r.files && r.files[TempSidecarOf(p)] == p.attrs)
    && ChecksOk(c, p)
  }

  predicate ChecksOk(c: Config, p: Proc) {
    && (p.pc == Idle ==> p.given == [])
    && ((p.pc == Idle || p.pc == CopyTemp) ==> p.staged == [])
    && (p.pc == Writing ==> p.job.Write? && (!p.failed && !p.cancelled ==> p.staged == p.given))
    && ((p.pc == CopyTemp || p.pc == CopyBytes || p.pc == CopyAttrs) ==> p.job.Copy?)
    && (p.pc == CopyAttrs || IsStaging(p.pc) || p.pc == UndoAttrs || p.pc.Commit? || p.won ==> p.checked)
    && (p.pc.Commit? ==> (p.pc.stage != Renamed && p.pc.stage != Refused))
    && (p.checked ==> p.staged == p.given && (p.pc != Idle && p.pc != CopyTemp && p.pc != Writing && p.pc != CopyBytes))
    && (p.checked ==> !p.job.Delete?)
    && (p.checked && p.job.Write? ==> !p.failed && MD5Matches(c, p.job, p.given))
  }

  /** How one step may change the files and the call that takes it. */
  ghost predicate StepOk(c: Config, r: Remote, p: Proc, r': Remote, p': Proc) {
    && ProcOk(c, r', p')
    && p'.job == p.job
    && r.clock <= r'.clock
    && (p.hasTemp ==> p'.hasTemp && p'.tag == p.tag)
    && (p'.hasTemp && !p.hasTemp ==> r.clock <= p'.tag)
    && (p.checked ==> p'.checked && p'.given == p.given)
    && (p'.checked && !p.checked ==> p'.given == p.given)
    && ReadOk(r, p, p')
    && BlobOk(r, p, r')
    && Framed(r, r', p')
  }

  /** A copy that has read its source. */
  predicate HasRead(p: Proc) {
    p.job.Copy? && (p.pc == CopyTemp || p.pc == CopyBytes || p.checked)
  }

  /** What a copy holds is what it has read from the blob at its source. */
  predicate ReadOk(r: Remote, p: Proc, p': Proc) {
    HasRead(p') ==>
      || (HasRead(p) && p'.given == p.given)
      || (p.job.Copy? && Blob(p.job.src) in r.files && r.files[Blob(p.job.src)] == Data(p'.given))
  }

  /** A blob changes only into what has been checked. */
  predicate BlobOk(r: Remote, p: Proc, r': Remote) {
    var q := Blob(p.job.key);
    Same(r.files, r'.files, q) || q !in r'.files || (p.checked && r'.files[q] == Data(p.given))
  }

  ghost predicate Framed(r: Remote, r': Remote, p': Proc) {
    forall q :: !Touches(p', q) ==> Same(r.files, r'.files, q)
  }

  predicate Touches(p: Proc, q: Path) {
    q.key == p.job.key && (q.Temp? || q.TempSidecar? ==> p.hasTemp && q.tag == p.tag)
  }

  lemma FilesKept(r: Remote, p: Proc, r': Remote, p': Proc)
    requires r'.files == r.files
    ensures BlobOk(r, p, r') && Framed(r, r', p')
  {
  }

  lemma OneFileWritten(r: Remote, p: Proc, r': Remote, p': Proc, path: Path, f: File)
    requires r'.files == r.files[path := f] && Touches(p', path) && !path.Blob?
    ensures BlobOk(r, p, r') && Framed(r, r', p')
  {
  }

  lemma OpenStepOk(c: Config, r: Remote, p: Proc, o: Outcome, n: nat, next: Pc)
    requires ProcOk(c, r, p) && !p.checked && !p.won
    requires if next == Writing then p.pc == Idle && p.job.Write? else p.pc == CopyTemp && next == CopyBytes
    ensures var (r', p') := OpenStep(r, p, o, n, next); StepOk(c, r, p, r', p')
  {
    hide BlobOk, Framed, MD5Matches;
    var (r', p') := OpenStep(r, p, o, n, next);
    if r'.files == r.files {
      FilesKept(r, p, r', p');
    } else {
      OneFileWritten(r, p, r', p', TempOf(p'), Data([]));
    }
  }

  lemma ChunkStepOk(c: Config, r: Remote, p: Proc, chunk: Bytes, ok: bool, n: nat)
    requires ProcOk(c, r, p) && p.pc == Writing
    ensures var (r', p') := ChunkStep(r, p, chunk, ok, n); StepOk(c, r, p, r', p')
  {
    hide Take;
  }

  lemma CloseStepOk(c: Config, r: Remote, p: Proc, o: Outcome)
    requires ProcOk(c, r, p) && p.pc == Writing
    ensures var (r', p') := CloseStep(c, r, p, o); StepOk(c, r, p, r', p')
  {
    hide BlobOk, Framed;
    var (r', p') := CloseStep(c, r, p, o);
    FilesKept(r, p, r', p');
  }

  lemma CopyBytesStepOk(c: Config, r: Remote, p: Proc, o: Outcome, n: nat)
    requires ProcOk(c, r, p) && p.pc == CopyBytes
    ensures var (r', p') := CopyBytesStep(c, r, p, o, n); StepOk(c, r, p, r', p')
  {
    hide Take;
  }

  lemma ReadKeepsProc(c: Config, r: Remote, p: Proc, r': Remote, p': Proc)
    requires ProcOk(c, r, p) && p.pc == CopyAttrs && (p'.pc == StageAttrs || p'.pc == DropTemp)
    requires p' == p.(attrs := p'.attrs, pc := p'.pc) && r'.files == r.files && r'.clock == r.clock
    ensures ProcOk(c, r', p') && p.hasTemp && p.checked
  {
    hide MD5Matches;
  }

  lemma ReadAttrsStepOk(c: Config, r: Remote, p: Proc, o: Outcome)
    requires ProcOk(c, r, p) && p.pc == CopyAttrs
    ensures var (r', p') := ReadAttrsStep(r, p, o); StepOk(c, r, p, r', p')
  {
    hide ProcOk, BlobOk, Framed, ReadAttrs;
    var (r', p') := ReadAttrsStep(r, p, o);
    FilesKept(r, p, r', p');
    ReadKeepsProc(c, r, p, r', p');
  }

  lemma StageAttrsStepOk(c: Config, r: Remote, p: Proc, o: Outcome)
    requires ProcOk(c, r, p) && p.pc == StageAttrs
    ensures var (r', p') := StageAttrsStep(r, p, o); StepOk(c, r, p, r', p')
  {
    hide MD5Matches;
  }

  lemma EncodeAttrsStepOk(c: Config, r: Remote, p: Proc, o: Outcome)
    requires ProcOk(c, r, p) && p.pc == EncodeAttrs
    ensures var (r', p') := EncodeAttrsStep(r, p, o); StepOk(c, r, p, r', p')
  {
    hide MD5Matches;
  }

  lemma CloseAttrsStepOk(c: Config, r: Remote, p: Proc, o: Outcome)
    requires ProcOk(c, r, p) && p.pc == CloseAttrs
    ensures var (r', p') := CloseAttrsStep(r, p, o); StepOk(c, r, p, r', p')
  {
    hide MD5Matches, BlobOk, Framed;
    var (r', p') := CloseAttrsStep(r, p, o);
    FilesKept(r, p, r', p');
  }

  /** Renaming touches the two names only, and leaves the destination as it was, gone,
      or with what was at the source. */
  lemma RenameFrame(c: Config, r: Remote, src: Path, dst: Path, stage: Stage, o: Outcome)
    requires src in r.files && src != dst
    ensures var (r', stage') := RenameStep(c, r, src, dst, stage, o);
            && (dst in r'.files ==> Same(r.files, r'.files, dst) || r'.files[dst] == r.files[src])
            && (src in r'.files ==> r'.files[src] == r.files[src])
            && ((stage' != Renamed && stage' != Refused) ==> src in r'.files)
            && (stage' == Renamed && stage != Renamed ==>
                  dst in r'.files && r'.files[dst] == r.files[src] && src !in r'.files)
            && (stage' != Renamed && o != Lost ==>
                  src in r'.files && (Same(r.files, r'.files, dst) || dst !in r'.files))
            && r'.clock == r.clock
  {
    hide RenameStep;
    RenameStepEffect(c, r, src, dst, stage, o);
  }

  lemma RenameElsewhere(c: Config, r: Remote, src: Path, dst: Path, stage: Stage, o: Outcome, q: Path)
    requires src in r.files && src != dst && q != src && q != dst
    ensures Same(r.files, RenameStep(c, r, src, dst, stage, o).0.files, q)
  {
    hide RenameStep;
    RenameStepEffect(c, r, src, dst, stage, o);
  }

  lemma CommitFrame(c: Config, r: Remote, src: Path, dst: Path, stage: Stage, o: Outcome, r': Remote, p': Proc)
    requires src in r.files && src != dst && Touches(p', src) && Touches(p', dst)
    requires r'.files == RenameStep(c, r, src, dst, stage, o).0.files
    ensures Framed(r, r', p')
  {
    hide RenameStep, Same;
    forall q | !Touches(p', q)
      ensures Same(r.files, r'.files, q)
    {
      RenameElsewhere(c, r, src, dst, stage, o, q);
    }
  }

  /** What is known of a call that is renaming the blob or the sidecar. */
  lemma CommitKnows(c: Config, r: Remote, p: Proc)
    requires ProcOk(c, r, p) && p.pc.Commit?
    ensures p.hasTemp && p.checked && p.staged == p.given
    ensures p.pc.stage != Renamed && p.pc.stage != Refused
    ensures !p.pc.side ==> TempOf(p) in r.files && r.files[TempOf(p)] == Data(p.given)
    ensures p.pc.side ==> c.sidecars
    ensures c.sidecars ==> TempSidecarOf(p) in r.files && r.files[TempSidecarOf(p)] == p.attrs
  {
    hide MD5Matches;
  }

  lemma CommitKeepsProc(c: Config, r: Remote, p: Proc, r': Remote, p': Proc)
    requires ProcOk(c, r, p) && p.pc.Commit? && r'.clock == r.clock
    requires p' == p.(pc := p'.pc, won := p'.won, ok := p'.ok)
    requires if p'.pc.Commit? then p'.pc.stage != Renamed && p'.pc.stage != Refused
             else p'.pc == Done || p'.pc == DropTemp || p'.pc == DropAttrs
    requires p'.pc.Commit? ==> Same(r.files, r'.files, TempSidecarOf(p))
    requires p'.pc.Commit? && p'.pc.side ==> c.sidecars
    requires p'.pc.Commit? && !p'.pc.side ==> !p.pc.side && Same(r.files, r'.files, TempOf(p))
    ensures ProcOk(c, r', p')
  {
    hide MD5Matches;
  }

  /** A step of renaming changes of the call only where it stands. */
  lemma CommitIsRead(c: Config, r: Remote, p: Proc, p': Proc)
    requires ProcOk(c, r, p) && p.pc.Commit? && p' == p.(pc := p'.pc, won := p'.won, ok := p'.ok)
    ensures ReadOk(r, p, p')
  {
    hide MD5Matches;
  }

  lemma CommitBlobOk(c: Config, r: Remote, p: Proc, o: Outcome)
    requires ProcOk(c, r, p) && p.pc.Commit? && !p.pc.side
    ensures var (r', p') := CommitBlobStep(c, r, p, p.pc.stage, o); StepOk(c, r, p, r', p')
  {
    hide RenameStep, ProcOk, ReadOk;
    CommitKnows(c, r, p);
    var src, dst := TempOf(p), Blob(p.job.key);
    RenameFrame(c, r, src, dst, p.pc.stage, o);
    RenameElsewhere(c, r, src, dst, p.pc.stage, o, TempSidecarOf(p));
    var (r', p') := CommitBlobStep(c, r, p, p.pc.stage, o);
    CommitFrame(c, r, src, dst, p.pc.stage, o, r', p');
    hide Framed;
    CommitIsRead(c, r, p, p');
    CommitKeepsProc(c, r, p, r', p');
  }

  lemma CommitSidecarOk(c: Config, r: Remote, p: Proc, o: Outcome)
    requires ProcOk(c, r, p) && p.pc.Commit? && p.pc.side
    ensures var (r', p') := CommitSidecarStep(c, r, p, p.pc.stage, o); StepOk(c, r, p, r', p')
  {
    hide RenameStep, ProcOk;
    CommitKnows(c, r, p);
    var src, dst := TempSidecarOf(p), Sidecar(p.job.key);
    RenameFrame(c, r, src, dst, p.pc.stage, o);
    RenameElsewhere(c, r, src, dst, p.pc.stage, o, Blob(p.job.key));
    var (r', p') := CommitSidecarStep(c, r, p, p.pc.stage, o);
    CommitFrame(c, r, src, dst, p.pc.stage, o, r', p');
    hide Framed;
    CommitIsRead(c, r, p, p');
    CommitKeepsProc(c, r, p, r', p');
  }

  lemma DropFrame(r: Remote, p: Proc, path: Path, o: Outcome, p': Proc)
    requires IsTempOf(p, path) && Touches(p', path)
    ensures BlobOk(r, p, Drop(r, path, o)) && Framed(r, Drop(r, path, o), p')
  {
  }

  predicate IsTempOf(p: Proc, path: Path) {
    path == TempOf(p) || path == TempSidecarOf(p)
  }

  lemma DropStepOk(c: Config, r: Remote, p: Proc, o: Outcome, n: nat)
    requires ProcOk(c, r, p) && (p.pc == DropAttrs || p.pc == DropTemp || p.pc == UndoAttrs)
    ensures var (r', p') := ProcStep(c, r, p, Go(o, n)); StepOk(c, r, p, r', p')
  {
    hide MD5Matches, RenameStep, Framed, BlobOk;
    var (r', p') := ProcStep(c, r, p, Go(o, n));
    DropFrame(r, p, if p.pc == DropTemp then TempOf(p) else TempSidecarOf(p), o, p');
  }

  lemma DeleteStepOk(c: Config, r: Remote, p: Proc, o: Outcome)
    requires ProcOk(c, r, p) && p.pc == Idle && p.job.Delete?
    ensures var (r', p') := DeleteStep(r, p, o); StepOk(c, r, p, r', p')
  {
  }

  lemma RemoveSidecarStepOk(c: Config, r: Remote, p: Proc, o: Outcome)
    requires ProcOk(c, r, p) && p.pc == RemoveSidecar
    ensures var (r', p') := RemoveSidecarStep(r, p, o); StepOk(c, r, p, r', p')
  {
    hide MD5Matches;
  }

  lemma CopyOpenStepOk(c: Config, r: Remote, p: Proc, o: Outcome)
    requires ProcOk(c, r, p) && p.pc == Idle && p.job.Copy?
    ensures var (r', p') := CopyOpenStep(r, p, o); StepOk(c, r, p, r', p')
  {
    hide BlobOk, Framed;
    var (r', p') := CopyOpenStep(r, p, o);
    FilesKept(r, p, r', p');
  }

  lemma ProcStepOk(c: Config, r: Remote, p: Proc, e: Event)
    requires ProcOk(c, r, p)
    ensures var (r', p') := ProcStep(c, r, p, e); StepOk(c, r, p, r', p')
  {
    hide ChunkStep, CloseStep, OpenStep, CopyBytesStep, ReadAttrsStep, StageAttrsStep, EncodeAttrsStep, CloseAttrsStep;
    hide CommitBlobStep, CommitSidecarStep, DeleteStep, CopyOpenStep, RemoveSidecarStep, Drop, Apply, MD5Matches;
    match e
    case Cancel =>
    case Chunk(chunk, ok, n) => if p.pc == Writing { ChunkStepOk(c, r, p, chunk, ok, n); }
    case Go(o, n) =>
      match p.pc
      case Idle =>
        if p.job.Write? { OpenStepOk(c, r, p, o, n, Writing); }
        else if p.job.Copy? { CopyOpenStepOk(c, r, p, o); }
        else { DeleteStepOk(c, r, p, o); }
      case CopyTemp => OpenStepOk(c, r, p, o, n, CopyBytes);
      case Writing => CloseStepOk(c, r, p, o);
      case CopyBytes => CopyBytesStepOk(c, r, p, o, n);
      case CopyAttrs => ReadAttrsStepOk(c, r, p, o);
      case StageAttrs => StageAttrsStepOk(c, r, p, o);
      case EncodeAttrs => EncodeAttrsStepOk(c, r, p, o);
      case UndoAttrs => DropStepOk(c, r, p, o, n);
      case CloseAttrs => CloseAttrsStepOk(c, r, p, o);
      case Commit(side, _) => if side { CommitSidecarOk(c, r, p, o); } else { CommitBlobOk(c, r, p, o); }
      case DropAttrs => DropStepOk(c, r, p, o, n);
      case DropTemp => DropStepOk(c, r, p, o, n);
      case RemoveSidecar => RemoveSidecarStepOk(c, r, p, o);
      case Done =>
  }

  // ---- all calls together ----

  /** The bytes are those of a blob that was there at the start, or of a write without
      a failed chunk and with the right MD5, in full. */
  ghost predicate Whole(c: Config, start: Files, procs: seq<Proc>, d: Bytes) {
    || (exists k :: Blob(k) in start && start[Blob(k)] == Data(d))
    || (exists i :: 0 <= i < |procs| && CompleteWrite(c, procs[i], d))
  }

  predicate CompleteWrite(c: Config, p: Proc, d: Bytes) {
    p.job.Write? && p.checked && p.given == d && !p.failed && MD5Matches(c, p.job, d)
  }

  /** And they got to key k because they were there, or by a write or a copy to k. */
  ghost predicate Came(start: Files, procs: seq<Proc>, k: string, f: File) {
    || (Blob(k) in start && start[Blob(k)] == f)
    || (exists i :: 0 <= i < |procs| && Brings(procs[i], k, f))
  }

  predicate Brings(p: Proc, k: string, f: File) {
    p.job.key == k && p.checked && f == Data(p.given)
  }

  ghost predicate TagsDiffer(procs: seq<Proc>) {
    forall i, j :: 0 <= i < j < |procs| && procs[i].hasTemp && procs[j].hasTemp ==> procs[i].tag != procs[j].tag
  }

  ghost predicate BlobsKnown(c: Config, start: Files, s: State) {
    && (forall k :: Blob(k) in s.remote.files ==> Came(start, s.procs, k, s.remote.files[Blob(k)]))
    && (forall i :: 0 <= i < |s.procs| && HasRead(s.procs[i]) ==> Whole(c, start, s.procs, s.procs[i].given))
  }

  ghost predicate Inv(c: Config, start: Files, s: State) {
    && (forall k :: Blob(k) in start ==> start[Blob(k)].Data?)
    && (forall i :: 0 <= i < |s.procs| ==> ProcOk(c, s.remote, s.procs[i]))
    && TagsDiffer(s.procs)
    && BlobsKnown(c, start, s)
  }

  /** What a step of call i leaves of the other calls. */
  lemma OthersOk(c: Config, r: Remote, r': Remote, p: Proc, p': Proc, x: Proc)
    requires ProcOk(c, r, x) && StepOk(c, r, p, r', p')
    requires x.hasTemp && p.hasTemp ==> x.tag != p.tag
    ensures ProcOk(c, r', x)
    ensures x.hasTemp && p'.hasTemp ==> x.tag != p'.tag
  {
    hide ChecksOk, BlobOk;
    assert x.hasTemp ==> !Touches(p', TempOf(x)) && !Touches(p', TempSidecarOf(x));
    assert x.hasTemp ==> Same(r.files, r'.files, TempOf(x)) && Same(r.files, r'.files, TempSidecarOf(x));
  }

  lemma WholeKept(c: Config, start: Files, procs: seq<Proc>, i: nat, p': Proc, d: Bytes)
    requires i < |procs| && Whole(c, start, procs, d)
    requires forall x :: CompleteWrite(c, procs[i], x) ==> CompleteWrite(c, p', x)
    ensures Whole(c, start, procs[i := p'], d)
  {
    hide CompleteWrite;
    if j :| 0 <= j < |procs| && CompleteWrite(c, procs[j], d) {
      assert CompleteWrite(c, procs[i := p'][j], d);
    }
  }

  lemma CameKept(start: Files, procs: seq<Proc>, i: nat, p': Proc, k: string, f: File)
    requires i < |procs| && Came(start, procs, k, f)
    requires Brings(procs[i], k, f) ==> Brings(p', k, f)
    ensures Came(start, procs[i := p'], k, f)
  {
    hide Brings;
    if j :| 0 <= j < |procs| && Brings(procs[j], k, f) {
      assert Brings(procs[i := p'][j], k, f);
    }
  }

  /** A blob that came to its key is whole. */
  lemma CameIsWhole(c: Config, start: Files, s: State, k: string, f: File)
    requires Inv(c, start, s) && Came(start, s.procs, k, f)
    ensures f.Data? && Whole(c, start, s.procs, f.bytes)
  {
    hide MD5Matches;
    if Blob(k) in start && start[Blob(k)] == f {
    } else {
      var i :| 0 <= i < |s.procs| && Brings(s.procs[i], k, f);
      var p := s.procs[i];
      assert ProcOk(c, s.remote, p);
      if p.job.Write? {
        assert CompleteWrite(c, p, p.given);
      } else {
        assert HasRead(p);
      }
    }
  }

  lemma BlobsStep(c: Config, start: Files, s: State, i: nat, r': Remote, p': Proc)
    requires Inv(c, start, s) && i < |s.procs| && StepOk(c, s.remote, s.procs[i], r', p')
    ensures BlobsKnown(c, start, State(r', s.procs[i := p']))
  {
    hide ProcOk, Whole, Came, TagsDiffer, Framed, Touches;
    var p, procs' := s.procs[i], s.procs[i := p'];
    StepKeepsWork(c, s.remote, p, r', p');
    forall k | Blob(k) in r'.files
      ensures Came(start, procs', k, r'.files[Blob(k)])
    {
      if Same(s.remote.files, r'.files, Blob(k)) {
        CameKept(start, s.procs, i, p', k, r'.files[Blob(k)]);
      } else {
        BlobChange(c, s.remote, p, r', p', k);
        ComesBy(start, procs', i, k);
      }
    }
    forall j | 0 <= j < |procs'| && HasRead(procs'[j])
      ensures Whole(c, start, procs', procs'[j].given)
    {
      var d := procs'[j].given;
      if j == i && !(HasRead(p) && d == p.given) {
        CameIsWhole(c, start, s, p.job.src, Data(d));
      }
      WholeKept(c, start, s.procs, i, p', d);
    }
  }

  /** A finished piece of work stays one. */
  lemma StepKeepsWork(c: Config, r: Remote, p: Proc, r': Remote, p': Proc)
    requires ProcOk(c, r, p) && StepOk(c, r, p, r', p')
    ensures forall x :: CompleteWrite(c, p, x) ==> CompleteWrite(c, p', x)
    ensures forall k, f :: Brings(p, k, f) ==> Brings(p', k, f)
  {
    hide MD5Matches, Framed, BlobOk, ReadOk;
  }

  lemma BlobChange(c: Config, r: Remote, p: Proc, r': Remote, p': Proc, k: string)
    requires StepOk(c, r, p, r', p') && Blob(k) in r'.files && !Same(r.files, r'.files, Blob(k))
    ensures Brings(p', k, r'.files[Blob(k)])
  {
    hide ProcOk, ReadOk;
    assert k == p.job.key by {
      assert Touches(p', Blob(k));
    }
  }

  lemma ComesBy(start: Files, procs: seq<Proc>, i: nat, k: string)
    requires i < |procs| && Brings(procs[i], k, Data(procs[i].given))
    ensures Came(start, procs, k, Data(procs[i].given))
  {
  }

  lemma InvStep(c: Config, start: Files, s: State, i: nat, e: Event)
    requires Inv(c, start, s)
    ensures Inv(c, start, Step(c, s, i, e))
  {
    hide ProcStep, ProcOk, BlobsKnown;
    if i < |s.procs| {
      var (r', p') := ProcStep(c, s.remote, s.procs[i], e);
      ProcStepOk(c, s.remote, s.procs[i], e);
      BlobsStep(c, start, s, i, r', p');
      hide StepOk;
      var procs' := s.procs[i := p'];
      assert ProcOk(c, r', p') by { StepProcOk(c, s.remote, s.procs[i], r', p'); }
      forall j | 0 <= j < |procs'|
        ensures ProcOk(c, r', procs'[j])
        ensures j != i && procs'[j].hasTemp && p'.hasTemp ==> procs'[j].tag != p'.tag
      {
        if j != i {
          assert TagsDiffer(s.procs);
          OthersOk(c, s.remote, r', s.procs[i], p', s.procs[j]);
        }
      }
    }
  }

  lemma StepProcOk(c: Config, r: Remote, p: Proc, r': Remote, p': Proc)
    requires StepOk(c, r, p, r', p')
    ensures ProcOk(c, r', p')
  {
  }

  lemma InvStart(c: Config, s: State)
    requires IsStart(s)
    ensures Inv(c, s.remote.files, s)
  {
    forall i | 0 <= i < |s.procs|
      ensures ProcOk(c, s.remote, s.procs[i])
    {
      assert s.procs[i] == NewProc(s.procs[i].job);
    }
  }

  lemma {:induction false} InvRun(c: Config, s: State, es: seq<(nat, Event)>)
    requires IsStart(s)
    ensures Inv(c, s.remote.files, Run(c, s, es))
  {
    hide Inv, IsStart;
    if es == [] {
      InvStart(c, s);
    } else {
      var n := |es| - 1;
      InvRun(c, s, es[..n]);
      InvStep(c, s.remote.files, Run(c, s, es[..n]), es[n].0, es[n].1);
    }
  }

  /** In every run, of any calls in any interleaving and with any failures, a blob is
      at any moment what was there at the start, or the whole of a write to its key
      that had no failed chunk and the MD5 asked for, or the whole of what a copy to
      its key has read, which again was written in full. */
  lemma BlobsAreWhole(c: Config, s: State, es: seq<(nat, Event)>, k: string)
    requires IsStart(s) && Blob(k) in Run(c, s, es).remote.files
    ensures var t := Run(c, s, es);
            var f := t.remote.files[Blob(k)];
            f.Data? && Came(s.remote.files, t.procs, k, f) && Whole(c, s.remote.files, t.procs, f.bytes)
  {
    hide IsStart;
    InvRun(c, s, es);
    var t := Run(c, s, es);
    CameIsWhole(c, s.remote.files, t, k, t.remote.files[Blob(k)]);
  }

  // ---- calls that are cancelled ----

  /** A call whose context was cancelled before its blob could be committed. */
  predicate IsDoomed(p: Proc) {
    && p.cancelled && !p.won && !p.ok && !p.job.Delete?
    && (p.pc == Idle || p.pc == Writing || p.pc == CopyTemp || p.pc == CopyBytes || p.pc == CopyAttrs || p.pc == StageAttrs
        || p.pc == DropAttrs || p.pc == DropTemp || p.pc == Done)
  }

  lemma DoomedStep(c: Config, r: Remote, p: Proc, e: Event)
    requires IsDoomed(p)
    ensures IsDoomed(ProcStep(c, r, p, e).1)
  {
    hide Apply, RenameStep, Take, MD5Matches, Remove;
  }

  /** Whatever it and all others do from then on, it puts nothing into place, and never
      returns without an error. */
  lemma {:induction false} CancelledFails(c: Config, s: State, es: seq<(nat, Event)>, j: nat)
    requires j < |s.procs| && IsDoomed(s.procs[j])
    ensures j < |Run(c, s, es).procs| && !Run(c, s, es).procs[j].won && !Run(c, s, es).procs[j].ok
    ensures IsDoomed(Run(c, s, es).procs[j])
  {
    hide ProcStep, IsDoomed;
    if es != [] {
      var n := |es| - 1;
      CancelledFails(c, s, es[..n], j);
      DoomedStep(c, Run(c, s, es[..n]).remote, Run(c, s, es[..n]).procs[j], es[n].1);
    }
    DoomedIs(Run(c, s, es).procs[j]);
  }

  lemma DoomedIs(p: Proc)
    requires IsDoomed(p)
    ensures !p.won && !p.ok
  {
  }
}
