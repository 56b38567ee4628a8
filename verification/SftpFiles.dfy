/** What the SFTP server keeps, what its operations do to it, and how commitRename
    uses them (blob/sftpblob/sftpblob.go:582-619). */
module SftpFiles {
  import opened Strings
  import opened SftpPaths

  /** A blob's bytes, a sidecar with its MD5 and its other attributes, or a sidecar
      that was not written to its end. */
  datatype File = Data(bytes: Bytes) | Attrs(meta: string, md5: Bytes) | Torn

  type Files = map<Path, File>

  /** The server and the bucket's options. */
  datatype Config = Config(
    posix: bool,      // has posix-rename@openssh.com
    clobbers: bool,   // its plain rename replaces the destination
    sidecars: bool,   // metadata is kept in sidecars
    hash: Bytes -> Bytes)

  /** How a remote operation goes: as it should, not at all, or done but with the
      answer lost on the way. */
  datatype Outcome = Ok | Fail | Lost

  function Move(files: Files, src: Path, dst: Path): Files
    requires src in files
  {
    (files - {src})[dst := files[src]]
  }

  /** SSH_FXP_RENAME: refused if the destination is taken. */
  function Rename(c: Config, files: Files, src: Path, dst: Path): Option<Files> {
    if src in files && (c.clobbers || dst !in files) then Some(Move(files, src, dst)) else None
  }

  function PosixRename(c: Config, files: Files, src: Path, dst: Path): Option<Files> {
    if c.posix && src in files then Some(Move(files, src, dst)) else None
  }

  function Remove(files: Files, p: Path): Option<Files> {
    if p in files then Some(files - {p}) else None
  }

  /** Where commitRename stands. */
  datatype Stage = Stat | Link | Posix | Unlink | Fallback | Renamed | Refused

  function FirstStage(ifNotExist: bool): Stage {
    if ifNotExist then Stat else Posix
  }

  /** The files, the latch posixRenameUnsupported, and the clock that names temporary
      files. */
  datatype Remote = Remote(files: Files, latch: bool, clock: nat)

  /** An operation that would do `done`. */
  function Apply(r: Remote, o: Outcome, done: Option<Files>): Remote {
    r.(files := if o == Fail || done.None? then r.files else done.value)
  }

  predicate Worked(o: Outcome, done: Option<Files>) {
    o == Ok && done.Some?
  }

  /** commitRename, one remote operation at a time. */
  function RenameStep(c: Config, r: Remote, src: Path, dst: Path, stage: Stage, o: Outcome): (Remote, Stage) {
    match stage
    case Stat =>
      (Apply(r, o, None), if o == Ok && dst in r.files then Refused else Link)
    case Link =>
      var done := Rename(c, r.files, src, dst);
      (Apply(r, o, done), if Worked(o, done) then Renamed else Refused)
    case Posix =>
      if r.latch then (r, Unlink)
      else if o == Ok && !c.posix then (r.(latch := true), Unlink)
      else
        var done := PosixRename(c, r.files, src, dst);
        (Apply(r, o, done), if Worked(o, done) then Renamed else Refused)
    case Unlink =>
      (Apply(r, o, Remove(r.files, dst)), if o == Ok then Fallback else Refused)
    case Fallback =>
      var done := Rename(c, r.files, src, dst);
      (Apply(r, o, done), if Worked(o, done) then Renamed else Refused)
    case _ => (r, stage)
  }

  /** What one step of commitRename does: the source stays as it is until it becomes
      the destination. */
  lemma RenameStepEffect(c: Config, r: Remote, src: Path, dst: Path, stage: Stage, o: Outcome)
    requires src in r.files && src != dst
    ensures var (r', stage') := RenameStep(c, r, src, dst, stage, o);
            && (r'.files == r.files || r'.files == r.files - {dst} || r'.files == Move(r.files, src, dst))
            && (stage' == Renamed && stage != Renamed ==> r'.files == Move(r.files, src, dst))
            && (stage' != Renamed && o != Lost ==>
                  src in r'.files && (r'.files == r.files || r'.files == r.files - {dst}))
            && ((stage' != Renamed && stage' != Refused) ==> src in r'.files)
            && r'.clock == r.clock
  {
  }

  /** Under IfNotExist, and where a plain rename is refused if the destination is
      taken, a destination that is there stays what it is. */
  lemma ConditionalStep(c: Config, r: Remote, src: Path, dst: Path, stage: Stage, o: Outcome)
    requires (stage == Stat || stage == Link) && !c.clobbers && src in r.files && src != dst
    ensures var (r', stage') := RenameStep(c, r, src, dst, stage, o);
            && (dst in r.files ==> r'.files == r.files && stage' != Renamed)
            && (stage' == Link || stage' == Renamed || stage' == Refused)
            && (stage' == Renamed ==> dst !in r.files && r'.files == Move(r.files, src, dst))
            && (stage' != Renamed && o != Lost ==> r'.files == r.files)
            && (stage' == Refused && o == Ok ==> dst in r.files)
  {
  }

  /** A step with a good answer: refused is only a conditional renaming, by a destination
      that is there, as long as a plain rename is tried for a free one only. */
  lemma GoodRename(c: Config, r: Remote, src: Path, dst: Path, stage: Stage)
    requires src in r.files && src != dst && stage != Renamed && stage != Refused
    requires stage == Link || stage == Fallback ==> dst !in r.files
    ensures var (r', next) := RenameStep(c, r, src, dst, stage, Ok);
            && (next == Refused ==> stage == Stat && dst in r.files)
            && (next == Link || next == Fallback ==> dst !in r'.files)
            && (next == Link <==> stage == Stat && dst !in r.files)
            && (stage == Stat ==> r'.files == r.files && (next == Link || next == Refused))
            && (stage == Link || stage == Fallback ==> next == Renamed)
            && next != Stat
  {
  }
}
