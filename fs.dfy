/**
 * The operating-system file calls the writer and the source reader make
 * (os.ReadFile, os.MkdirAll, os.WriteFile), over an in-memory file system.
 * Which calls fail is fixed in advance by sets of paths, so that two calls
 * on the same state behave the same way.
 */
module Fs {
  import opened Wrappers

  type Path = string

  /** Why a file-system call failed. */
  datatype IoError = NotExist(path: Path) | PermissionDenied(path: Path)

  /**
   * The file contents and directories, the paths whose read, directory
   * creation or write fails, and the paths written so far, in order.
   */
  datatype FsState = FsState(
    files: map<Path, string>,
    dirs: set<Path>,
    unreadable: set<Path>,
    mkdirFails: set<Path>,
    writeFails: set<Path>,
    writes: seq<Path>)

  /** os.ReadFile: the contents of an existing readable file. */
  function ReadFile(st: FsState, p: Path): Result<string, IoError>
  {
    if p !in st.files then Err(NotExist(p))
    else if p in st.unreadable then Err(PermissionDenied(p))
    else Ok(st.files[p])
  }

  /** os.MkdirAll: the directory exists afterwards, unless its creation fails. */
  function MkdirAll(st: FsState, dir: Path): Result<FsState, IoError>
  {
    if dir in st.mkdirFails then Err(PermissionDenied(dir))
    else Ok(st.(dirs := st.dirs + {dir}))
  }

  /** os.WriteFile: the file holds exactly the content afterwards, unless the write fails. */
  function WriteFile(st: FsState, p: Path, content: string): Result<FsState, IoError>
  {
    if p in st.writeFails then Err(PermissionDenied(p))
    else Ok(st.(files := st.files[p := content], writes := st.writes + [p]))
  }

  /**
   * filepath.Dir: everything before the last separator ("." when there is
   * none, "/" when the separator is the first character).
   */
  function Dir(p: Path): Path
    decreases |p|
  {
    if p == [] then "."
    else if p[|p| - 1] == '/' then (if |p| == 1 then "/" else p[..|p| - 1])
    else Dir(p[..|p| - 1])
  }

  /** filepath.Join of two elements: empty elements are dropped, the others joined by "/". */
  function JoinPath(a: Path, b: Path): Path
  {
    if a == "" then b else if b == "" then a else a + "/" + b
  }

  /** The file system as a mutable object, with one method per system call. */
  class FileSystem {
    var files: map<Path, string>
    var dirs: set<Path>
    var writes: seq<Path>
    const unreadable: set<Path>
    const mkdirFails: set<Path>
    const writeFails: set<Path>

    function State(): FsState
      reads this
    {
      FsState(files, dirs, unreadable, mkdirFails, writeFails, writes)
    }

    constructor (files: map<Path, string>, dirs: set<Path>,
                 unreadable: set<Path>, mkdirFails: set<Path>, writeFails: set<Path>)
      ensures State() == FsState(files, dirs, unreadable, mkdirFails, writeFails, [])
    {
      this.files := files;
      this.dirs := dirs;
      this.writes := [];
      this.unreadable := unreadable;
      this.mkdirFails := mkdirFails;
      this.writeFails := writeFails;
    }

    method Read(p: Path) returns (r: Result<string, IoError>)
      ensures r == ReadFile(State(), p)
    {
      if p !in files {
        r := Err(NotExist(p));
      } else if p in unreadable {
        r := Err(PermissionDenied(p));
      } else {
        r := Ok(files[p]);
      }
    }

    method Mkdir(dir: Path) returns (err: Option<IoError>)
      modifies this
      ensures MkdirAll(old(State()), dir).Ok? ==> err.None? && State() == MkdirAll(old(State()), dir).value
      ensures MkdirAll(old(State()), dir).Err? ==> err == Some(MkdirAll(old(State()), dir).error) && State() == old(State())
    {
      if dir in mkdirFails {
        err := Some(PermissionDenied(dir));
      } else {
        dirs := dirs + {dir};
        err := None;
      }
    }

    method Write(p: Path, content: string) returns (err: Option<IoError>)
      modifies this
      ensures WriteFile(old(State()), p, content).Ok? ==> err.None? && State() == WriteFile(old(State()), p, content).value
      ensures WriteFile(old(State()), p, content).Err? ==> err == Some(WriteFile(old(State()), p, content).error) && State() == old(State())
    {
      if p in writeFails {
        err := Some(PermissionDenied(p));
      } else {
        files := files[p := content];
        writes := writes + [p];
        err := None;
      }
    }
  }
}
