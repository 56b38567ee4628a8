/** The names that are kept for bookkeeping: sidecars and writes in progress
    (blob/httpblob/webdav.go:497-501, blob/sftpblob/sftpblob.go:634-639). */
module Reserved {
  import opened Strings

  const ATTRS_EXT := ".attrs"
  const TEMP_INFIX := ".gocdktmp."

  /** A listing passes over such a path, and fullPath refuses it as a blob's. */
  predicate IsInternalPath(path: string) {
    HasSuffix(path, ATTRS_EXT) || Contains(path, TEMP_INFIX)
  }
}
