/** What the file backends see of the operating system. */
module Os {
  /** A non-nil `*os.File`: still open (`Live`) or already closed (`Closed`). A closed file
      rejects writes and a second close with os.ErrClosed. */
  datatype Handle = Live | Closed

  /** How `os.MkdirAll` followed by `os.OpenFile` turns out when a file backend initialises. */
  datatype FsOutcome = FsOk | MkdirFails | OpenFails
}
