/**
 * writeIfDifferent (writer.go): write a file only when it is missing,
 * unreadable or holds other content, creating its directory first.
 */
module Writer {
  import opened Wrappers
  import opened Fs

  /** The two ways the write can fail. */
  datatype WriteError = CreatingDirectory(dir: Path, cause: IoError) | WritingFile(cause: IoError)

  /**
   * What one call does to the file system and what it returns: nothing when
   * the file already reads back as `content`; otherwise the directory is
   * created and the file written, stopping at the first failure.
   */
  function WriteStep(st: FsState, path: Path, content: string): (FsState, Option<WriteError>)
  {
    if ReadFile(st, path) == Ok(content) then (st, None)
    else
      var dir := Dir(path);
      match MkdirAll(st, dir)
      case Err(e) => (st, Some(CreatingDirectory(dir, e)))
      case Ok(made) =>
        match WriteFile(made, path, content)
        case Err(e) => (made, Some(WritingFile(e)))
        case Ok(written) => (written, None)
  }

  /** writeIfDifferent on a mutable file system; the logger calls are not part of this model. */
  method WriteIfDifferent(fs: FileSystem, path: Path, content: string) returns (err: Option<WriteError>)
    modifies fs
    ensures (fs.State(), err) == WriteStep(old(fs.State()), path, content)
  {
    var existing := fs.Read(path);
    if existing.Ok? && existing.value == content {
      return None;
    }
    var dir := Dir(path);
    var made := fs.Mkdir(dir);
    if made.Some? {
      return Some(CreatingDirectory(dir, made.value));
    }
    var written := fs.Write(path, content);
    if written.Some? {
      return Some(WritingFile(written.value));
    }
    return None;
  }

  /** The skip branch of WriteStep, stated on its own: a file that already reads back as the content is left alone and the call succeeds. */
  lemma SkipWhenCurrent(st: FsState, path: Path, content: string)
    requires ReadFile(st, path) == Ok(content)
    ensures WriteStep(st, path, content) == (st, None)
  {
  }

  /**
   * When the file cannot be read, whatever the content, the directory is
   * created and the file written, unless one of those calls fails; the
   * directory exists afterwards even when only the write fails.
   */
  lemma WriteWhenUnread(st: FsState, path: Path, content: string)
    requires ReadFile(st, path).Err?
    ensures var (after, err) := WriteStep(st, path, content);
      if Dir(path) in st.mkdirFails then err == Some(CreatingDirectory(Dir(path), PermissionDenied(Dir(path))))
      else if path in st.writeFails then err.Some? && err.value.WritingFile?
      else err.None? && after.writes == st.writes + [path] && after.files == st.files[path := content]
    ensures Dir(path) !in st.mkdirFails ==> Dir(path) in WriteStep(st, path, content).0.dirs
  {
  }

  /**
   * The call succeeds exactly when the file already reads back as the
   * content, or neither the directory creation nor the write fails.
   */
  lemma WriteSucceedsIff(st: FsState, path: Path, content: string)
    ensures WriteStep(st, path, content).1.None?
        <==> ReadFile(st, path) == Ok(content) || (Dir(path) !in st.mkdirFails && path !in st.writeFails)
  {
  }

  /** After a successful call the file holds exactly the content. */
  lemma WritePersists(st: FsState, path: Path, content: string)
    requires WriteStep(st, path, content).1.None?
    ensures var after := WriteStep(st, path, content).0;
      path in after.files && after.files[path] == content
  {
  }

  /** The directory branch of WriteStep, stated on its own: a failed directory creation returns an error and writes nothing. */
  lemma MkdirFailureWritesNothing(st: FsState, path: Path, content: string)
    requires ReadFile(st, path) != Ok(content) && Dir(path) in st.mkdirFails
    ensures WriteStep(st, path, content) == (st, Some(CreatingDirectory(Dir(path), PermissionDenied(Dir(path)))))
  {
  }

  /** The write branch of WriteStep, stated on its own: a failed write returns an error and leaves every file as it was. */
  lemma WriteFailureKeepsFiles(st: FsState, path: Path, content: string)
    requires ReadFile(st, path) != Ok(content) && Dir(path) !in st.mkdirFails && path in st.writeFails
    ensures var (after, err) := WriteStep(st, path, content);
      err == Some(WritingFile(PermissionDenied(path))) && after.files == st.files && after.writes == st.writes
  {
  }

  /**
   * After a successful call the files are the old ones with `path` set to
   * the content: whether the call skipped or wrote, no other file appears,
   * disappears or changes.
   */
  lemma WriteSuccessFiles(st: FsState, path: Path, content: string)
    requires WriteStep(st, path, content).1.None?
    ensures WriteStep(st, path, content).0.files == st.files[path := content]
  {
    if ReadFile(st, path) == Ok(content) {
      assert st.files[path := content] == st.files;
    }
  }

  /**
   * Nothing but `path` is written: every other file keeps its contents, the
   * only directory that can appear is the file's own, and at most one write
   * is made.
   */
  lemma WriteFrame(st: FsState, path: Path, content: string)
    ensures var after := WriteStep(st, path, content).0;
      (forall q :: q != path ==> (q in after.files <==> q in st.files))
      && (forall q :: q != path && q in st.files ==> after.files[q] == st.files[q])
      && (after.dirs == st.dirs || after.dirs == st.dirs + {Dir(path)})
      && (after.writes == st.writes || after.writes == st.writes + [path])
      && after.unreadable == st.unreadable && after.mkdirFails == st.mkdirFails
      && after.writeFails == st.writeFails
  {
  }

  /**
   * Idempotence: once a call has succeeded on a readable path, a second call
   * with the same content changes nothing, so the two calls make at most one
   * write between them.
   */
  lemma WriteTwice(st: FsState, path: Path, content: string)
    requires path !in st.unreadable
    requires WriteStep(st, path, content).1.None?
    ensures var once := WriteStep(st, path, content).0;
      WriteStep(once, path, content) == (once, None)
      && |once.writes| <= |st.writes| + 1
  {
    var once := WriteStep(st, path, content).0;
    WritePersists(st, path, content);
    WriteFrame(st, path, content);
    assert ReadFile(once, path) == Ok(content);
  }

  /** The result of the call as writeIfDifferent is written: it returns, or it panics on a nil logger. */
  datatype Outcome = Returned(st: FsState, err: Option<WriteError>) | NilLoggerPanic(st: FsState)

  /**
   * writeIfDifferent as written: both success paths call the logger without
   * checking it, so with no logger set the call panics there, after the file
   * has been written in the second case.
   */
  function WriteStepAsWritten(st: FsState, path: Path, content: string, hasLogger: bool): Outcome
  {
    if ReadFile(st, path) == Ok(content) then
      if hasLogger then Returned(st, None) else NilLoggerPanic(st)
    else
      var dir := Dir(path);
      match MkdirAll(st, dir)
      case Err(e) => Returned(st, Some(CreatingDirectory(dir, e)))
      case Ok(made) =>
        match WriteFile(made, path, content)
        case Err(e) => Returned(made, Some(WritingFile(e)))
        case Ok(written) => if hasLogger then Returned(written, None) else NilLoggerPanic(written)
  }

  /**
   * Without a logger, every call that would succeed panics instead; a new
   * extractor has no logger until one is set.
   */
  lemma NilLoggerPanics(st: FsState, path: Path, content: string)
    ensures WriteStep(st, path, content).1.None?
        <==> WriteStepAsWritten(st, path, content, false).NilLoggerPanic?
    ensures WriteStepAsWritten(st, path, content, false).NilLoggerPanic?
        ==> WriteStepAsWritten(st, path, content, false).st == WriteStep(st, path, content).0
  {
  }

  /** With a logger set, the code as written returns exactly what the corrected step returns. */
  lemma AsWrittenWithLogger(st: FsState, path: Path, content: string)
    ensures var (after, err) := WriteStep(st, path, content);
      WriteStepAsWritten(st, path, content, true) == Returned(after, err)
  {
  }
}
