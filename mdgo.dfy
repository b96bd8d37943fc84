/**
 * The Mdgo object (mdgo.go): where to read markdown from, where to write the
 * extracted code, and Extract, which ties the source reader, the extractor
 * and the writer together.
 */
module Mdgo {
  import opened Wrappers
  import opened Text
  import opened Fs
  import opened Extractor
  import opened Writer
  import opened Documents

  /** An in-memory ReaderFile such as an embed.FS: the files it can read, by name. */
  datatype EmbedFS = EmbedFS(entries: map<string, string>)

  /** ReaderFile.ReadFile on an in-memory file set. */
  function EmbedRead(r: EmbedFS, name: string): Result<string, IoError>
  {
    if name in r.entries then Ok(r.entries[name]) else Err(NotExist(name))
  }

  /**
   * The fields of an Mdgo. A nil byte slice is None and a non-nil one, even
   * empty, is Some; a nil reader is None; a nil logger is hasLogger == false.
   */
  datatype Config = Config(
    rootDir: string,
    destination: string,
    hasLogger: bool,
    inputPath: string,
    inputBytes: Option<string>,
    inputEmbed: Option<EmbedFS>,
    inputEmbedPath: string)

  /** At most one of the three input sources is configured. */
  predicate AtMostOneSource(c: Config) {
    (if c.inputBytes.Some? then 1 else 0)
      + (if c.inputPath != "" then 1 else 0)
      + (if c.inputEmbed.Some? then 1 else 0) <= 1
  }

  /** New: the two directories, no logger and no input. */
  function Initial(rootDir: string, destination: string): (c: Config)
    ensures c.rootDir == rootDir && c.destination == destination
    ensures !c.hasLogger && AtMostOneSource(c)
    ensures c.inputBytes.None? && c.inputPath == "" && c.inputEmbed.None?
  {
    Config(rootDir, destination, false, "", None, None, "")
  }

  /** SetLogger: only the logger changes. */
  function WithLogger(c: Config, hasLogger: bool): (r: Config)
    ensures r.hasLogger == hasLogger
    ensures r.rootDir == c.rootDir && r.destination == c.destination
    ensures r.inputBytes == c.inputBytes && r.inputPath == c.inputPath
    ensures r.inputEmbed == c.inputEmbed && r.inputEmbedPath == c.inputEmbedPath
  {
    c.(hasLogger := hasLogger)
  }

  /** InputPath: the path is the input; the bytes and the reader are cleared. */
  function WithInputPath(c: Config, path: string): (r: Config)
    ensures r.inputPath == path && r.inputBytes.None? && r.inputEmbed.None? && r.inputEmbedPath == ""
    ensures AtMostOneSource(r)
    ensures r.rootDir == c.rootDir && r.destination == c.destination && r.hasLogger == c.hasLogger
  {
    c.(inputPath := path, inputBytes := None, inputEmbed := None, inputEmbedPath := "")
  }

  /** InputByte: the bytes are the input; the path and the reader are cleared. */
  function WithInputBytes(c: Config, content: Option<string>): (r: Config)
    ensures r.inputBytes == content && r.inputPath == "" && r.inputEmbed.None? && r.inputEmbedPath == ""
    ensures AtMostOneSource(r)
    ensures r.rootDir == c.rootDir && r.destination == c.destination && r.hasLogger == c.hasLogger
  {
    c.(inputBytes := content, inputPath := "", inputEmbed := None, inputEmbedPath := "")
  }

  /** InputEmbed: the reader and its path are the input; the path and the bytes are cleared. */
  function WithInputEmbed(c: Config, r: Option<EmbedFS>, path: string): (res: Config)
    ensures res.inputEmbed == r && res.inputEmbedPath == path && res.inputPath == "" && res.inputBytes.None?
    ensures AtMostOneSource(res)
    ensures res.rootDir == c.rootDir && res.destination == c.destination && res.hasLogger == c.hasLogger
  {
    c.(inputEmbed := r, inputEmbedPath := path, inputPath := "", inputBytes := None)
  }

  /** Why the configured source could not be read. */
  datatype SourceError =
    | ReadingFile(fullPath: Path, cause: IoError)
    | ReadingEmbedded(path: string, cause: IoError)
    | NoInputConfigured

  /**
   * readConfiguredSource: the bytes if set (even when empty), else the file
   * at rootDir joined with the path if a path is set, else the reader's file
   * if a reader is set; with none of them, an error.
   */
  function ReadSource(c: Config, st: FsState): Result<string, SourceError>
  {
    if c.inputBytes.Some? then Ok(c.inputBytes.value)
    else if c.inputPath != "" then
      var fullPath := JoinPath(c.rootDir, c.inputPath);
      match ReadFile(st, fullPath)
      case Ok(data) => Ok(data)
      case Err(e) => Err(ReadingFile(fullPath, e))
    else if c.inputEmbed.Some? then
      match EmbedRead(c.inputEmbed.value, c.inputEmbedPath)
      case Ok(data) => Ok(data)
      case Err(e) => Err(ReadingEmbedded(c.inputEmbedPath, e))
    else Err(NoInputConfigured)
  }

  /**
   * The extension of a file name: the suffix from the last '.' of its final
   * path component, or "" when that component has no '.'.
   */
  function Ext(p: string): string
    decreases |p|
  {
    if p == [] || p[|p| - 1] == '/' then ""
    else if p[|p| - 1] == '.' then "."
    else
      var e := Ext(p[..|p| - 1]);
      if e == "" then "" else e + [p[|p| - 1]]
  }

  /** getCodeType: the fence tag for an output file, or "" for an unsupported extension. */
  function CodeType(outputFile: string): (t: string)
    ensures t == "" || LiteralTag(t)
  {
    match Ext(outputFile)
    case ".go" => "go"
    case ".js" => "javascript"
    case ".css" => "css"
    case _ => ""
  }

  /** Why Extract failed. */
  datatype ExtractError =
    | DestinationNotSet
    | ReadingSource(sourceError: SourceError)
    | UnsupportedExtension(ext: string)
    | NoCodeBlocks(codeType: string)
    | WritingOutput(writeError: WriteError)

  /**
   * What Extract does to the file system and what it returns: the checks in
   * the order destination, source, extension, extracted code, then the write
   * of the code to destination joined with the output file name.
   */
  function ExtractStep(c: Config, st: FsState, outputFile: string): (FsState, Option<ExtractError>)
  {
    if c.destination == "" then (st, Some(DestinationNotSet))
    else
      match ReadSource(c, st)
      case Err(e) => (st, Some(ReadingSource(e)))
      case Ok(markdown) =>
        var codeType := CodeType(outputFile);
        if codeType == "" then (st, Some(UnsupportedExtension(Ext(outputFile))))
        else
          var code := Bundle(markdown, codeType);
          if code == "" then (st, Some(NoCodeBlocks(codeType)))
          else
            var (after, err) := WriteStep(st, JoinPath(c.destination, outputFile), code);
            (after, if err.Some? then Some(WritingOutput(err.value)) else None)
  }

  /** The result of Extract as the Go code writes it: it returns, or the writer panics on a nil logger. */
  datatype ExtractOutcome = Finished(st: FsState, err: Option<ExtractError>) | Panicked(st: FsState)

  /**
   * Extract as written: the same checks as ExtractStep, but the write goes
   * through writeIfDifferent as written, whose unguarded logger calls panic
   * when no logger is set. Extract's own final logger call is guarded.
   */
  function ExtractStepAsWritten(c: Config, st: FsState, outputFile: string): ExtractOutcome
  {
    if c.destination == "" then Finished(st, Some(DestinationNotSet))
    else
      match ReadSource(c, st)
      case Err(e) => Finished(st, Some(ReadingSource(e)))
      case Ok(markdown) =>
        var codeType := CodeType(outputFile);
        if codeType == "" then Finished(st, Some(UnsupportedExtension(Ext(outputFile))))
        else
          var code := Bundle(markdown, codeType);
          if code == "" then Finished(st, Some(NoCodeBlocks(codeType)))
          else
            match WriteStepAsWritten(st, JoinPath(c.destination, outputFile), code, c.hasLogger)
            case NilLoggerPanic(after) => Panicked(after)
            case Returned(after, err) => Finished(after, if err.Some? then Some(WritingOutput(err.value)) else None)
  }

  /** With a logger set, Extract as written returns exactly what ExtractStep returns. */
  lemma ExtractAsWrittenWithLogger(c: Config, st: FsState, outputFile: string)
    requires c.hasLogger
    ensures var (after, err) := ExtractStep(c, st, outputFile);
      ExtractStepAsWritten(c, st, outputFile) == Finished(after, err)
  {
    if c.destination != "" && ReadSource(c, st).Ok? && CodeType(outputFile) != "" {
      var code := Bundle(ReadSource(c, st).value, CodeType(outputFile));
      AsWrittenWithLogger(st, JoinPath(c.destination, outputFile), code);
    }
  }

  /**
   * Without a logger (the state New leaves), every Extract that would succeed
   * panics instead, after the output file has been written or found current;
   * every failing one returns the same error.
   */
  lemma ExtractNilLoggerPanics(c: Config, st: FsState, outputFile: string)
    requires !c.hasLogger
    ensures var (after, err) := ExtractStep(c, st, outputFile);
      ExtractStepAsWritten(c, st, outputFile) == if err.None? then Panicked(after) else Finished(after, err)
  {
    if c.destination != "" && ReadSource(c, st).Ok? && CodeType(outputFile) != "" {
      var code := Bundle(ReadSource(c, st).value, CodeType(outputFile));
      NilLoggerPanics(st, JoinPath(c.destination, outputFile), code);
    }
  }

  /**
   * The extension is a suffix of the name; it is empty or starts with the
   * name's last '.', and no '.' or '/' follows that dot.
   */
  lemma {:induction false} ExtShape(p: string)
    ensures var e := Ext(p);
      |e| <= |p| && e == p[|p| - |e|..]
      && (e == "" || e[0] == '.')
      && forall k :: 0 < k < |e| ==> e[k] != '.' && e[k] != '/'
    decreases |p|
  {
    if p != [] && p[|p| - 1] != '/' && p[|p| - 1] != '.' {
      var init := p[..|p| - 1];
      ExtShape(init);
      var e := Ext(init);
      if e != "" {
        assert init[|init| - |e|..] + [p[|p| - 1]] == p[|p| - |e| - 1..];
      }
    }
  }

  /** The extension table: three supported extensions, and "" for every other. */
  lemma CodeTypeTable(outputFile: string)
    ensures CodeType(outputFile) == "go" <==> Ext(outputFile) == ".go"
    ensures CodeType(outputFile) == "javascript" <==> Ext(outputFile) == ".js"
    ensures CodeType(outputFile) == "css" <==> Ext(outputFile) == ".css"
    ensures CodeType(outputFile) == "" <==> Ext(outputFile) !in {".go", ".js", ".css"}
  {
  }

  /**
   * A name that ends in a dot followed by characters that are neither dots
   * nor separators has exactly that ending as its extension, whatever comes
   * before it.
   */
  lemma {:induction false} ExtOfName(stem: string, ext: string)
    requires |ext| >= 1 && ext[0] == '.'
    requires forall k :: 0 < k < |ext| ==> ext[k] != '.' && ext[k] != '/'
    ensures Ext(stem + ext) == ext
    decreases |ext|
  {
    var p := stem + ext;
    var c := p[|p| - 1];
    assert c == ext[|ext| - 1];
    if |ext| > 1 {
      var init := ext[..|ext| - 1];
      assert p[..|p| - 1] == stem + init;
      ExtOfName(stem, init);
      assert c != '/' && c != '.';
      assert Ext(p) == Ext(p[..|p| - 1]) + [c];
      assert ext == init + [c];
    } else {
      assert c == '.';
    }
  }

  /** Output names of each kind, and one that is not supported. */
  lemma CodeTypeExamples(stem: string)
    ensures CodeType(stem + ".go") == "go"
    ensures CodeType(stem + ".js") == "javascript"
    ensures CodeType(stem + ".css") == "css"
    ensures CodeType(stem + ".py") == "" && Ext(stem + ".py") == ".py"
  {
    ExtOfName(stem, ".go");
    ExtOfName(stem, ".js");
    ExtOfName(stem, ".css");
    ExtOfName(stem, ".py");
  }

  /** With no input of any kind configured, and only then, reading the source fails with "no input configured". */
  lemma NoInputIff(c: Config, st: FsState)
    ensures ReadSource(c, st) == Err(NoInputConfigured)
        <==> c.inputBytes.None? && c.inputPath == "" && c.inputEmbed.None?
  {
  }

  /** After InputByte with a non-nil slice, the source is those bytes, even when empty, whatever was set before. */
  lemma InputByteIsRead(c: Config, st: FsState, content: string)
    ensures ReadSource(WithInputBytes(c, Some(content)), st) == Ok(content)
  {
  }

  /** After InputPath with a non-empty path, the source is the file at rootDir joined with that path. */
  lemma InputPathIsRead(c: Config, st: FsState, path: string)
    requires path != ""
    ensures var fullPath := JoinPath(c.rootDir, path);
      ReadSource(WithInputPath(c, path), st)
        == if ReadFile(st, fullPath).Ok? then Ok(ReadFile(st, fullPath).value)
           else Err(ReadingFile(fullPath, ReadFile(st, fullPath).error))
  {
  }

  /** After InputEmbed with a reader, the source is the reader's file at the given path. */
  lemma InputEmbedIsRead(c: Config, st: FsState, r: EmbedFS, path: string)
    ensures ReadSource(WithInputEmbed(c, Some(r), path), st)
        == if path in r.entries then Ok(r.entries[path]) else Err(ReadingEmbedded(path, NotExist(path)))
  {
  }

  /** A fresh object with a destination fails with "no input configured", before the extension is looked at. */
  lemma NewThenExtract(rootDir: string, destination: string, st: FsState, outputFile: string)
    requires destination != ""
    ensures ExtractStep(Initial(rootDir, destination), st, outputFile) == (st, Some(ReadingSource(NoInputConfigured)))
  {
  }

  /**
   * The failures before the write, in order: no destination, an unreadable
   * source, an unsupported extension, no code extracted. Each leaves the file
   * system as it was. This reads ExtractStep back one branch at a time, as
   * the program's promise about the order of its checks.
   */
  lemma ErrorPrecedence(c: Config, st: FsState, outputFile: string)
    ensures c.destination == "" ==> ExtractStep(c, st, outputFile) == (st, Some(DestinationNotSet))
    ensures c.destination != "" && ReadSource(c, st).Err? ==>
      ExtractStep(c, st, outputFile) == (st, Some(ReadingSource(ReadSource(c, st).error)))
    ensures c.destination != "" && ReadSource(c, st).Ok? && CodeType(outputFile) == "" ==>
      ExtractStep(c, st, outputFile) == (st, Some(UnsupportedExtension(Ext(outputFile))))
    ensures (c.destination != "" && ReadSource(c, st).Ok? && CodeType(outputFile) != ""
             && Bundle(ReadSource(c, st).value, CodeType(outputFile)) == "") ==>
      ExtractStep(c, st, outputFile) == (st, Some(NoCodeBlocks(CodeType(outputFile))))
  {
  }

  /**
   * On success the output file, destination joined with the output name,
   * holds exactly the code extracted from the source for the extension's tag,
   * and no other file changes.
   */
  lemma ExtractWrites(c: Config, st: FsState, outputFile: string)
    requires ExtractStep(c, st, outputFile).1.None?
    ensures c.destination != "" && ReadSource(c, st).Ok? && CodeType(outputFile) != ""
    ensures var after := ExtractStep(c, st, outputFile).0;
      var outputPath := JoinPath(c.destination, outputFile);
      var code := Bundle(ReadSource(c, st).value, CodeType(outputFile));
      code != "" && after.files == st.files[outputPath := code]
  {
    var code := Bundle(ReadSource(c, st).value, CodeType(outputFile));
    var outputPath := JoinPath(c.destination, outputFile);
    WriteSuccessFiles(st, outputPath, code);
  }

  /**
   * A second Extract with the same settings after a successful one changes
   * nothing and succeeds, when the source file, if any, is not the output
   * file and the output file is readable. As written, that second call
   * takes the skip path and panics there unless a logger is set.
   */
  lemma ExtractTwice(c: Config, st: FsState, outputFile: string)
    requires c.inputBytes.Some? || c.inputPath == ""
      || JoinPath(c.rootDir, c.inputPath) != JoinPath(c.destination, outputFile)
    requires JoinPath(c.destination, outputFile) !in st.unreadable
    requires ExtractStep(c, st, outputFile).1.None?
    ensures var once := ExtractStep(c, st, outputFile).0;
      ExtractStep(c, once, outputFile) == (once, None)
    ensures var once := ExtractStep(c, st, outputFile).0;
      ExtractStepAsWritten(c, once, outputFile) == if c.hasLogger then Finished(once, None) else Panicked(once)
  {
    var once := ExtractStep(c, st, outputFile).0;
    var code := Bundle(ReadSource(c, st).value, CodeType(outputFile));
    var outputPath := JoinPath(c.destination, outputFile);
    WriteFrame(st, outputPath, code);
    assert ReadSource(c, once) == ReadSource(c, st);
    WriteTwice(st, outputPath, code);
    if c.hasLogger {
      ExtractAsWrittenWithLogger(c, once, outputFile);
    } else {
      ExtractNilLoggerPanics(c, once, outputFile);
    }
  }

  /**
   * End to end: an object made by New, given the two-block markdown as bytes
   * and a logger or not, writes both go bodies, trimmed and joined by a blank
   * line, to the output file in the destination directory. With a logger the
   * call returns nil; without one, as written, it panics after the write.
   */
  lemma TwoGoExtract(st: FsState, markdown: string, outputFile: string, hasLogger: bool)
    requires markdown == "text\n" + ("```go\n" + ("func A(){}\n" + ("```" + ("\nmore\n"
                         + ("```go\n" + ("func B(){}\n" + ("```" + "\n")))))))
    requires outputFile == "main" + ".go"
    requires st.mkdirFails == {} && st.writeFails == {}
    ensures var c := WithLogger(WithInputBytes(Initial("", "out"), Some(markdown)), hasLogger);
      var (after, err) := ExtractStep(c, st, outputFile);
      var outputPath := "out" + "/" + outputFile;
      err.None? && outputPath in after.files
      && after.files[outputPath] == "func A(){}" + "\n\n" + "func B(){}"
      && ExtractStepAsWritten(c, st, outputFile) == if hasLogger then Finished(after, None) else Panicked(after)
  {
    var c := WithLogger(WithInputBytes(Initial("", "out"), Some(markdown)), hasLogger);
    TwoGoBlocks(markdown);
    CodeTypeExamples("main");
    WriteSucceedsIff(st, JoinPath("out", outputFile), "func A(){}" + "\n\n" + "func B(){}");
    ExtractWrites(c, st, outputFile);
    if hasLogger {
      ExtractAsWrittenWithLogger(c, st, outputFile);
    } else {
      ExtractNilLoggerPanics(c, st, outputFile);
    }
  }

  /** An Mdgo object; every setter updates its fields in place and returns the same object. */
  class Mdgo {
    var rootDir: string
    var destination: string
    var hasLogger: bool
    var inputPath: string
    var inputBytes: Option<string>
    var inputEmbed: Option<EmbedFS>
    var inputEmbedPath: string

    function Settings(): Config
      reads this
    {
      Config(rootDir, destination, hasLogger, inputPath, inputBytes, inputEmbed, inputEmbedPath)
    }

    /** New */
    constructor New(rootDir: string, destination: string)
      ensures Settings() == Initial(rootDir, destination)
    {
      this.rootDir := rootDir;
      this.destination := destination;
      this.hasLogger := false;
      this.inputPath := "";
      this.inputBytes := None;
      this.inputEmbed := None;
      this.inputEmbedPath := "";
    }

    method SetLogger(hasLogger: bool) returns (m: Mdgo)
      modifies this
      ensures m == this && Settings() == WithLogger(old(Settings()), hasLogger)
    {
      this.hasLogger := hasLogger;
      m := this;
    }

    method InputPath(pathFile: string) returns (m: Mdgo)
      modifies this
      ensures m == this && Settings() == WithInputPath(old(Settings()), pathFile)
    {
      inputPath := pathFile;
      inputBytes := None;
      inputEmbed := None;
      inputEmbedPath := "";
      m := this;
    }

    method InputByte(content: Option<string>) returns (m: Mdgo)
      modifies this
      ensures m == this && Settings() == WithInputBytes(old(Settings()), content)
    {
      inputBytes := content;
      inputPath := "";
      inputEmbed := None;
      inputEmbedPath := "";
      m := this;
    }

    method InputEmbed(r: Option<EmbedFS>, path: string) returns (m: Mdgo)
      modifies this
      ensures m == this && Settings() == WithInputEmbed(old(Settings()), r, path)
    {
      inputEmbed := r;
      inputEmbedPath := path;
      inputPath := "";
      inputBytes := None;
      m := this;
    }

    /** readConfiguredSource; it reads the file system but changes nothing. */
    method ReadConfiguredSource(fs: FileSystem) returns (r: Result<string, SourceError>)
      ensures r == ReadSource(Settings(), fs.State())
    {
      if inputBytes.Some? {
        return Ok(inputBytes.value);
      }
      if inputPath != "" {
        var fullPath := JoinPath(rootDir, inputPath);
        var data := fs.Read(fullPath);
        if data.Err? {
          return Err(ReadingFile(fullPath, data.error));
        }
        return Ok(data.value);
      }
      if inputEmbed.Some? {
        var b := EmbedRead(inputEmbed.value, inputEmbedPath);
        if b.Err? {
          return Err(ReadingEmbedded(inputEmbedPath, b.error));
        }
        return Ok(b.value);
      }
      return Err(NoInputConfigured);
    }

    /**
     * Extract with the corrected writer: the final logger call is guarded in
     * the Go code and has no effect here; the unguarded calls inside the
     * writer are modelled by ExtractStepAsWritten.
     */
    method Extract(fs: FileSystem, outputFile: string) returns (err: Option<ExtractError>)
      modifies fs
      ensures (fs.State(), err) == ExtractStep(Settings(), old(fs.State()), outputFile)
    {
      if destination == "" {
        return Some(DestinationNotSet);
      }
      var markdown := ReadConfiguredSource(fs);
      if markdown.Err? {
        return Some(ReadingSource(markdown.error));
      }
      var codeType := CodeType(outputFile);
      if codeType == "" {
        return Some(UnsupportedExtension(Ext(outputFile)));
      }
      var code := ExtractCodeBlocks(markdown.value, codeType);
      if code == "" {
        return Some(NoCodeBlocks(codeType));
      }
      var outputPath := JoinPath(destination, outputFile);
      var written := WriteIfDifferent(fs, outputPath, code);
      if written.Some? {
        return Some(WritingOutput(written.value));
      }
      return None;
    }
  }
}
