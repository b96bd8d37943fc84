# mdgo in Dafny

mdgo extracts the fenced code blocks of one language from a markdown
document and writes them, trimmed and separated by a blank line, to an
output file whose extension picks the language (`.go`, `.js`, `.css`). The
output file is only written when its content would change.

This project models:

- the fence extractor (`extractCodeBlocks`);
- the change-aware writer (`writeIfDifferent`);
- the `Mdgo` object: `New`, `SetLogger`, the three input setters, the source
  reader, the extension table and `Extract`.

It proves properties of each.

Modules, one per file:

- `Wrappers`: `Option` and `Result`.
- `Text`: `strings.TrimSpace` on ASCII whitespace, `strings.Join`, and the
  triple-backtick marker.
- `Extractor`: the pattern ```` (?s)```TAG\n(.*?)``` ```` as a literal
  scanner.
  - `Scan` finds the leftmost opener that has a closing marker after it.
  - It cuts the body at the first closing marker, as the lazy `.*?` does.
  - It resumes after that marker, as `FindAllStringSubmatch` does.
  - `Bundle` is the function the extractor computes. The method
    `ExtractCodeBlocks` (with its loop `TrimEach`) is proved equal to it.
- `Documents`: markdown built from prose and blocks. Its main result is a
  round trip: extracting the blocks of such a document gives back exactly
  the bodies written into it.
- `Fs`: an in-memory file system. Failures are fixed sets of paths, so
  repeated calls behave the same way. It comes as a `FileSystem` class whose
  methods stand for `os.ReadFile`, `os.MkdirAll` and `os.WriteFile`, plus
  `filepath.Dir` and a two-element `filepath.Join`.
- `Writer`: `WriteStep` says what one call does to the file system and what
  it returns. The method `WriteIfDifferent` is proved to do exactly that.
- `Mdgo`: the object's fields as a `Config` value and as the class `Mdgo`.
  Each setter is specified by a function on `Config`. `ExtractStep`
  specifies `Extract`.

## Behaviour worth knowing

- **Source read before extension check.** `Extract` reads the source before
  it looks at the extension (mdgo.go:79-89). So with no input configured,
  even an unsupported output name fails with "no input configured".
- **Priority, not exclusivity.** The setters keep at most one input source,
  but the reader itself does not demand exactly one. It takes them by
  priority: bytes, then path, then reader. A non-nil empty byte slice
  counts as configured.

## Model

| member | source | states |
|---|---|---|
| Text.TrimSpace | extractor.go:19 | the trimmed string is empty exactly when the input is all whitespace, and otherwise starts and ends with a non-whitespace character |
| Text.TrimSpaceSlice | extractor.go:19 | the trimmed string is the stretch of the input after its leading whitespace, and only whitespace follows it |
| Text.TrimSpaceIs | extractor.go:19 | a stretch with only whitespace around it and non-whitespace at both ends is exactly what trimming returns |
| Text.Join | extractor.go:24 | defines strings.Join: the parts in order, `sep` between consecutive parts, "" for no part; its properties are JoinEmptyIff and JoinNoFence |
| Text.JoinEmptyIff | extractor.go:24 | a join with a non-empty separator is empty exactly when there is no part, or one empty part |
| Text.JoinNoFence | extractor.go:24 | joining parts free of triple backticks with a backtick-free separator gives a string free of triple backticks |
| Extractor.Opener | extractor.go:12 | defines the literal text the pattern starts with: a triple backtick, the tag, a newline; its shape is stated by OpenerShape and OpenerStart |
| Extractor.FirstFence | extractor.go:12 | the closing marker found lies at or after the start position and really is a triple backtick |
| Extractor.FirstFenceIsFirst | extractor.go:12 | the lazy body: no closing marker starts before the one found, and none exists when none is found |
| Extractor.MatchAt | extractor.go:12-13 | defines "the compiled pattern matches at p": an opener at p and a closing marker somewhere after it; NextMatchLeftmost, NextSpanNoneIff, ScanEmptyIff and BundleNoMatch are stated in its terms |
| Extractor.NextMatch | extractor.go:12-14 | the position found is at or after the start position, and the pattern matches there (an opener with a later closing marker) |
| Extractor.NextMatchLeftmost | extractor.go:12-14 | the match found is the leftmost one, and when none is found the pattern matches nowhere further on |
| Extractor.NextSpan | extractor.go:12-14 | a body starts after its opener, ends before its closing marker, and the marker lies inside the text |
| Extractor.NextSpanCaptured | extractor.go:12 | the next span is a capture: the opener right before it, a closing marker right after it, none inside it |
| Extractor.NextSpanNoneIff | extractor.go:12-14 | no span is found exactly when the pattern matches nowhere at or after the start position |
| Extractor.ScanCaptures | extractor.go:12-14 | the scan reports every match and nothing else: each span is a capture whose opener is the leftmost match after the previous closing marker, and no match remains after the last span |
| Extractor.OrderedCaptured | extractor.go:14 | each span of an ordered list of captures is a capture |
| Extractor.OrderedDisjoint | extractor.go:14 | captures do not overlap: a later body starts after an earlier closing marker plus an opener |
| Extractor.ScanEmptyIff | extractor.go:12-14 | the scan finds nothing exactly when the pattern matches nowhere |
| Extractor.ScanSkips | extractor.go:12-14 | text without a backtick holds no match, and the scan passes over it unchanged |
| Extractor.ProseThenBlock | extractor.go:12-14 | after backtick-free prose, an opener, a backtick-free body and a closing marker, the scan reports that body's span and resumes after the marker |
| Extractor.ProseOnly | extractor.go:12-14 | backtick-free text up to the end yields no match |
| Extractor.OpenerStart | extractor.go:12 | an opener of a non-empty tag needs a triple backtick at its position and the tag's first character right after it |
| Extractor.NextMatchPast | extractor.go:12-14 | where no opener of the tag starts in a stretch, the leftmost match is found after it |
| Extractor.ForeignBlockNoOpener | extractor.go:12 | for a non-empty tag, no opener of it starts anywhere in a block of another tag, from the block's opening marker through its first closing marker, provided: the opening marker is not followed by a fourth backtick; the closing marker is followed by the end of the text or by a character that is neither a backtick nor the tag's first (a closing marker directly followed by "go\n" would open a go block); the tag and body may hold single or double backticks |
| Extractor.ForeignBlockSkipped | extractor.go:12-14 | under the same conditions (non-empty tag, no fourth backtick after the opening marker, the first closing marker followed by the end of the text or by a character that is neither a backtick nor the tag's first), a block of another tag such as ```js, template literals included, does not interrupt matching: the scan passes over it whole and resumes after its first closing marker |
| Extractor.OpenerShape | extractor.go:12 | an opener is a triple backtick, the tag, and a newline right after the tag; so "```go\r\n", "```go \n" and "```golang\n" do not open a go block |
| Extractor.SpanTexts | extractor.go:14 | one captured text per span |
| Extractor.Scan | extractor.go:14 | defines FindAllStringSubmatch on the literal pattern: the leftmost match's body, then the matches after its closing marker; its properties are ScanCaptures, OrderedDisjoint, ScanEmptyIff, ScanSkips, ProseThenBlock and ForeignBlockSkipped |
| Extractor.Captures | extractor.go:14-19 | defines the group-1 texts of all matches from the start of the markdown; its properties are CaptureNoFence and Documents.ExtractDocument |
| Extractor.CaptureNoFence | extractor.go:12 | no captured body contains a triple backtick |
| Extractor.TrimNoFence | extractor.go:19 | trimming cannot create a triple backtick |
| Extractor.BundleNoFence | extractor.go:12-24 | the extractor's output never contains a triple backtick |
| Extractor.BundleEmptyIff | extractor.go:16-24 | the output is empty exactly when there is no match, or one match whose body is all whitespace; two matches always give output |
| Extractor.BundleNoMatch | extractor.go:12-24 | when the pattern matches nowhere, the output is empty |
| Extractor.Bundle | extractor.go:9-25 | defines the extractor's result, the trimmed bodies joined by "\n\n"; its properties are BundleNoFence, BundleEmptyIff, BundleNoMatch and Documents.ExtractDocument, and ExtractCodeBlocks is proved equal to it |
| Extractor.BlocksTrimmed | extractor.go:17-21 | every block is the trimmed body of the match at the same position, so it has no leading or trailing whitespace |
| Extractor.TrimAll | extractor.go:16-21 | one trimmed block per match |
| Extractor.Blocks | extractor.go:16-21 | defines the `blocks` slice: the trimmed bodies of all matches, in order; its properties are BlocksTrimmed, and ExtractCodeBlocks builds it with the loop TrimEach |
| Extractor.TrimAllSnoc | extractor.go:17-20 | trimming one more match appends its trimmed body to the blocks |
| Extractor.TrimEach | extractor.go:16-21 | the append loop yields the trimmed bodies of all matches, in order |
| Extractor.ExtractCodeBlocks | extractor.go:9-25 | the method returns exactly the trimmed bodies of all matches joined by a blank line |
| Documents.DocumentLayout | extractor.go:12-14 | a document built from prose and blocks has each opener, body and closing marker at its offset |
| Documents.LayoutStep | extractor.go:12-14 | for a block after backtick-free prose, the first captured text is the block's body, and the rest is what follows its closing marker |
| Documents.LayoutScan | extractor.go:12-14 | scanning such a layout captures exactly the bodies written into it, in order |
| Documents.ExtractDocument | extractor.go:12-24 | round trip: with backtick-free prose and bodies, the matches are exactly the written bodies, and the output is their trimmed forms joined by a blank line |
| Documents.TrimLine | extractor.go:19 | a line with no whitespace at its ends, followed by a newline, trims to the line |
| Documents.TwoGoDocument | extractor.go:12 | the two-block example markdown is the document built from its prose and bodies |
| Documents.TwoGoBundle | extractor.go:9-25 | the example document gives "func A(){}" + blank line + "func B(){}" |
| Documents.TwoGoBlocks | extractor.go:9-25 | "text\n```go\nfunc A(){}\n```\nmore\n```go\nfunc B(){}\n```\n" with tag go gives "func A(){}\n\nfunc B(){}" |
| Documents.TwoGoTrimmed | extractor.go:19 | each example body loses its final newline when trimmed |
| Fs.FileSystem.Read | writer.go:12 | the read returns the file's content for an existing readable file, and an error otherwise |
| Fs.FileSystem.Mkdir | writer.go:24 | directory creation adds the directory, or fails and changes nothing |
| Fs.FileSystem.Write | writer.go:29 | the write records the content and the written path, or fails and changes nothing |
| Fs.ReadFile | writer.go:12 | defines os.ReadFile: the content of a present readable file, NotExist for a missing one, PermissionDenied for an unreadable one |
| Fs.MkdirAll | writer.go:24 | defines os.MkdirAll: the directory is added, unless its creation is set to fail |
| Fs.WriteFile | writer.go:29 | defines os.WriteFile: the file holds exactly the content and the write is recorded, unless the write is set to fail |
| Fs.Dir | writer.go:23 | defines filepath.Dir: everything before the last "/", "." without one, "/" for a leading one |
| Fs.JoinPath | mdgo.go:98 | defines a two-element filepath.Join: empty elements dropped, the others joined by "/" |
| Writer.WriteStep | writer.go:10-36 | defines one call with the logger calls guarded: skip when the file reads back as the content, else MkdirAll(Dir(path)) then WriteFile, stopping at the first failure; its properties are the lemmas below |
| Writer.WriteIfDifferent | writer.go:10-36 | the method changes the file system and returns exactly as WriteStep says |
| Writer.SkipWhenCurrent | writer.go:12-18 | a file that already reads back as the content is left alone, and the call succeeds |
| Writer.WriteWhenUnread | writer.go:12-31 | when the read fails, whatever the content, the directory is created (and exists afterwards even when the write then fails) and the file written, unless one of those calls fails |
| Writer.WriteSucceedsIff | writer.go:12-35 | the call succeeds exactly when the file is already current, or neither directory creation nor the write fails |
| Writer.WritePersists | writer.go:29-35 | after a successful call the file holds exactly the content |
| Writer.MkdirFailureWritesNothing | writer.go:23-26 | a failed directory creation returns an error and leaves the file system unchanged |
| Writer.WriteFailureKeepsFiles | writer.go:29-31 | a failed write returns an error and leaves every file as it was |
| Writer.WriteFrame | writer.go:23-29 | no other file changes; only the file's own directory can appear; at most one write is made |
| Writer.WriteSuccessFiles | writer.go:12-35 | after a successful call, skip or write, the files are the old ones with the path set to the content: no other file appears, disappears or changes |
| Writer.WriteTwice | writer.go:12-29 | after a successful call on a readable path, a second identical call changes nothing, so two calls make at most one write |
| Writer.NilLoggerPanics | writer.go:13-33 | as written, with no logger, a call panics exactly when the corrected call would succeed, after the same changes to the file system |
| Writer.AsWrittenWithLogger | writer.go:10-36 | with a logger set, the code as written behaves exactly as WriteStep |
| Writer.WriteStepAsWritten | writer.go:10-36 | defines one call as written: as WriteStep, but both success paths panic when no logger is set, the second after the write |
| Mdgo.Initial | mdgo.go:28-34 | New keeps both directories, has no logger and no input |
| Mdgo.WithLogger | mdgo.go:37-40 | SetLogger changes only the logger |
| Mdgo.WithInputPath | mdgo.go:43-50 | InputPath sets the path and clears the other two sources; the directories and logger stay; at most one source remains |
| Mdgo.WithInputBytes | mdgo.go:53-60 | InputByte sets the bytes and clears the other two sources; the directories and logger stay; at most one source remains |
| Mdgo.WithInputEmbed | mdgo.go:63-70 | InputEmbed sets the reader and its path and clears the other two sources; the directories and logger stay; at most one source remains |
| Mdgo.Mdgo.New | mdgo.go:28-34 | the new object's fields are those of Initial |
| Mdgo.Mdgo.SetLogger | mdgo.go:37-40 | the object's fields change as WithLogger says, and the same object is returned |
| Mdgo.Mdgo.InputPath | mdgo.go:43-50 | the object's fields change as WithInputPath says, and the same object is returned |
| Mdgo.Mdgo.InputByte | mdgo.go:53-60 | the object's fields change as WithInputBytes says, and the same object is returned |
| Mdgo.Mdgo.InputEmbed | mdgo.go:63-70 | the object's fields change as WithInputEmbed says, and the same object is returned |
| Mdgo.Mdgo.ReadConfiguredSource | mdgo.go:111-132 | the method returns what ReadSource gives for the object's fields |
| Mdgo.ReadSource | mdgo.go:111-132 | defines readConfiguredSource: bytes if set, else the file at rootDir joined with the path, else the reader's file, else "no input configured"; its properties are NoInputIff, InputByteIsRead, InputPathIsRead and InputEmbedIsRead |
| Mdgo.EmbedRead | mdgo.go:22-24 | defines ReaderFile.ReadFile on an in-memory file set: the entry's content, or NotExist for a missing name; its properties are InputEmbedIsRead |
| Mdgo.NoInputIff | mdgo.go:111-132 | reading fails with "no input configured" exactly when no bytes, no path and no reader are set |
| Mdgo.InputByteIsRead | mdgo.go:113-114 | after InputByte with a non-nil slice, the source is those bytes, even when empty, whatever was set before |
| Mdgo.InputPathIsRead | mdgo.go:116-122 | after InputPath with a non-empty path, the source is the file at rootDir joined with the path, or an error naming that path |
| Mdgo.InputEmbedIsRead | mdgo.go:124-129 | after InputEmbed with a reader, the source is the reader's file, or an error naming the path |
| Mdgo.ExtShape | mdgo.go:136 | the extension is a suffix of the name that is empty or starts at its last dot, with no dot or separator after it |
| Mdgo.Ext | mdgo.go:136 | defines the extension of a name: from its last '.' in the final path component, or ""; its properties are ExtShape and ExtOfName |
| Mdgo.ExtOfName | mdgo.go:136 | a name ending in a dot and then characters with no dot or separator has that ending as its extension |
| Mdgo.CodeType | mdgo.go:135-147 | every tag the table yields is a literal pattern fragment |
| Mdgo.CodeTypeTable | mdgo.go:135-147 | .go gives go, .js gives javascript, .css gives css, and every other extension gives "" |
| Mdgo.CodeTypeExamples | mdgo.go:135-147 | names ending in .go, .js and .css get their tags, and one ending in .py gets "" |
| Mdgo.ExtractStep | mdgo.go:74-108 | defines Extract with the corrected writer: destination, source, extension and code checks in order, then WriteStep on destination joined with the output name; its properties are the lemmas below |
| Mdgo.Mdgo.Extract | mdgo.go:74-108 | the method changes the file system and returns exactly as ExtractStep says (the corrected writer; see Findings) |
| Mdgo.ExtractStepAsWritten | mdgo.go:74-108 | defines Extract as written: as ExtractStep, but the write goes through WriteStepAsWritten and so panics when no logger is set |
| Mdgo.ExtractAsWrittenWithLogger | mdgo.go:74-108 | with a logger set, Extract as written returns exactly what ExtractStep returns |
| Mdgo.ExtractNilLoggerPanics | mdgo.go:74-108 | with no logger (as New leaves it), every Extract that would succeed panics instead, after the same changes to the file system; failing ones return the same error |
| Mdgo.NewThenExtract | mdgo.go:74-83 | a fresh object with a destination fails with "no input configured", whatever the output name, and changes nothing |
| Mdgo.ErrorPrecedence | mdgo.go:75-95 | failures come in order (destination, source, extension, no code), and each leaves the file system unchanged |
| Mdgo.ExtractWrites | mdgo.go:92-101 | on success the files are the old ones with destination joined with the output name set to exactly the extracted code: no other file appears, disappears or changes |
| Mdgo.ExtractTwice | mdgo.go:74-107 | a second Extract after a successful one changes nothing and succeeds, when the source file, if any, is not the output file and the output is readable; as written, that second call panics unless a logger is set |
| Mdgo.TwoGoExtract | mdgo.go:74-107 | end to end: the two-block example as bytes, written to main.go in out, writes "func A(){}\n\nfunc B(){}"; as written the call then returns nil with a logger and panics without one |

## Left out

- **Operating-system calls.** They are an in-memory map. Which reads,
  directory creations and writes fail is fixed in advance by sets of paths.
  Error kinds beyond "missing" and "permission denied" are not modelled.
  File modes are not modelled.
  - A failed write leaves the file unchanged. A real write that fails
    partway can truncate it.
  - MkdirAll records only the directory itself, not its parents.
- **`filepath.Join` and `filepath.Dir`.** They are modelled without
  `filepath.Clean`, so "a/./b", "a//b" and ".." are not normalised. Join
  drops empty elements and otherwise inserts one "/".
- **`Convert(...).PathExt()`.** The library is not part of this model. It
  is taken to return the suffix from the last '.' of the final path
  component, like `filepath.Ext`.
- **ReaderFile.** Both the interface and embed.FS are an in-memory map from
  names to contents. A missing name is the only read error.
- **Regular expressions.** Only tags without regular-expression
  metacharacters are modelled (`ExtractCodeBlocks` requires `LiteralTag`).
  The three tags `CodeType` yields satisfy it.
- **Whitespace.** `TrimSpace` trims ASCII whitespace only (space, \t, \n,
  \v, \f, \r). Unicode spaces such as U+0085 and U+00A0 are kept.
- **Bytes versus strings.** Strings are sequences of characters. Byte input
  is its string.
- **Logging.** What is logged is not modelled; only the presence of a logger
  is. The guarded log call at the end of Extract (mdgo.go:103-105) changes
  nothing else. The unguarded calls in the writer are modelled only by the
  as-written members (see Findings).
- Mdgo.ExtractStep: models Extract with the corrected writer, so it returns
  nil where the code as written panics for want of a logger;
  Mdgo.ExtractStepAsWritten models that panic.
- Mdgo.Mdgo.Extract: proved against Mdgo.ExtractStep, the corrected
  behaviour; a method cannot panic, so the as-written outcome is stated only
  of the function Mdgo.ExtractStepAsWritten.
- **Error texts.** `Errf` messages are error datatypes rather than formatted
  strings.
- **The `len(match) > 1` test** (extractor.go:18). It always holds for a
  pattern with one group, so the model appends every match.
- **Concurrency.** Several callers writing the same output path are not
  modelled.
- **Slice: the empty fallback.** It applies only to spans outside the text,
  which the scan never reports (ScanCaptures).
- **Documents.ExtractDocument.** The round trip is stated for backtick-free
  prose and bodies. Blocks of other tags inside the prose are covered
  separately, by Extractor.ForeignBlockSkipped; other stray backticks only by
  the general scan properties.
- Extractor.ForeignBlockSkipped: does not cover a block of another tag whose
  closing marker is directly followed by the tag, as in
  "```js\nx\n```go\nA\n```". There that closing marker opens a go block, and
  the pattern does match at it, so the block is not passed over whole.

## Findings

| source | as written | input that shows it | evidently intended | confidence | as-written member | corrected member |
|---|---|---|---|---|---|---|
| writer.go:16, writer.go:33 | `m.logger(...)` is called on both success paths without a nil check, and `New` sets the logger to nil (mdgo.go:32) | `New("", "out").InputByte(md).Extract("main.go")` with no `SetLogger`, where md has a go block: the file is written, then the nil function call panics | log only when a logger is set, as `Extract` does at mdgo.go:103 | not executed; a call through a nil func value panics in Go | Writer.WriteStepAsWritten (shown by Writer.NilLoggerPanics) | Writer.WriteStep (proved by Writer.WriteSucceedsIff, Writer.WritePersists, Writer.WriteTwice; agrees with the code as written when a logger is set: Writer.AsWrittenWithLogger) |
| mdgo.go:32, mdgo.go:99 | `New` leaves the logger nil and `Extract` calls `writeIfDifferent`, whose logger calls are unguarded | the same call, or a second identical `Extract` after a successful one (which panics on the skip path at writer.go:16) | `Extract` returns nil | not executed; follows from the writer row | Mdgo.ExtractStepAsWritten (shown by Mdgo.ExtractNilLoggerPanics and Mdgo.TwoGoExtract) | Mdgo.ExtractStep (proved by Mdgo.ExtractWrites, Mdgo.ExtractTwice; agrees with the code as written when a logger is set: Mdgo.ExtractAsWrittenWithLogger) |
