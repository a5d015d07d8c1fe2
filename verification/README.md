# A verified model of the SDCC web compiler's sectioning core

The application stores C source files in folders, cuts each file into typed,
possibly nested line ranges ("sections": directives, variables, procedures,
comments, inline assembly), keeps those sections in a per-file store, runs
the SDCC compiler on the file and lays the compiler's diagnostics back onto
the sections.  This project models that core in Dafny and proves what it
promises.  The modules follow the program's files:

- `Classifier` and `Sectionizer` give the pattern table of `api/parser.py`
  (one predicate per row, first match wins) and a functional description of
  one parse: the records it emits, or `None` where the Python code raises.
- `Parsing` is the `Parser` class itself, imperative as in the source.  It
  has a counter, an iterator position and the `data` list, and it is proved
  to produce exactly what `Sectionizer.Sectionize` describes.
- `Models` holds the stored records of `models.py` and their `__str__` texts.
- `Sections` is `SectionApi` over an in-memory table of sections.  Every
  mutator keeps the table *laminar*: two sections of one file have distinct
  starts, distinct ends, and are disjoint or strictly nested.
- `CompilerApi` holds the `Compiler` guard, the option string, the reading of
  stderr into diagnostics and statuses, and the two listing enrichments.
- `Files` holds `FileApi` and `FolderApi`: soft deletes, creation rules, and
  deleting a range of lines from a file's text.
- `FolderTrees` is `FolderTree`: the roots, then the recursive expansion of
  every folder into its subfolders and files.
- `Views` holds the request handlers that carry logic: the dependent options,
  `parse_file` (the nested re-parse, then clear and insert), the two status
  passes of `Compile.post`, and `DeleteSection.post`.

Three behaviours of the code a reader may not expect, which the model keeps:

- A brace-form `asm {` line opens no section.  Its table key is `asm`, and
  the branch that opens a section compares against `assembly`
  (`Sectionizer.BraceAsmOpensNoSection`).
- The nested pass of `parse_file` walks the list it is extending.  So
  procedures found inside a body are parsed again too, at any depth, not
  just one level down (`Views.ParseFile`).
- The slice a nested parse reads is the lines `start + 1 .. end`.  It keeps
  the closing line of the procedure and drops the signature line
  (`Views.RescanInside`).

## Model

| member | source | states |
|---|---|---|
| Classifier.FirstMatch | compilator_8_bit/compiler/api/parser.py:38-43 | the chosen row matches the stripped line and sits at a position of the table before which no row matches, so it is the first match; `None` exactly when no row matches |
| Classifier.FirstMatchWins | compilator_8_bit/compiler/api/parser.py:38-43 | in a table without repeats, row `i` is chosen iff it matches and no earlier row does |
| Classifier.ClassifyFirstMatchWins | compilator_8_bit/compiler/api/parser.py:10-24 | a line's category is the first row of the pattern table, in its listed order, that matches the stripped line |
| Classifier.EndCommentRowFirst | compilator_8_bit/compiler/api/parser.py:10-24 | every row before `end_block_comment` needs a leading `#` or `/`; that row needs only a closing `*/` |
| Classifier.EndCommentBeforeDeclarations | compilator_8_bit/compiler/api/parser.py:17-19 | a line ending in `*/` and starting with neither `#` nor `/` is tagged `end_block_comment` before the declaration rows are tried |
| Sectionizer.ClassifyAll | compilator_8_bit/compiler/api/parser.py:38-43 | one category per line, each the first-match classification of that line (first match: `ClassifyFirstMatchWins`) |
| Sectionizer.FindKey | compilator_8_bit/compiler/api/parser.py:74-77 | the first index at or after `j` classified `k`, or the end; no line in between is |
| Sectionizer.RunEnd | compilator_8_bit/compiler/api/parser.py:85-88 | the first index at or after `j` not classified like the run; every line in between is |
| Sectionizer.FindAll | compilator_8_bit/compiler/api/parser.py:124 | only bracket characters of the requested pair are returned, and (for two distinct brackets) as many as the line holds of either |
| Sectionizer.FirstBracketLine | compilator_8_bit/compiler/api/parser.py:128-131 | the first line at or after `j` holding a bracket; none before it does |
| Sectionizer.ClosingLine | compilator_8_bit/compiler/api/parser.py:134-138 | the first line where the running bracket depth drops to at most 0; it stays positive before |
| Sectionizer.BalancedEnd | compilator_8_bit/compiler/api/parser.py:120-141 | the end line of a bracket-balanced construct lies at or after its opening line |
| Sectionizer.SectionBranches | compilator_8_bit/compiler/api/parser.py:71-174 | the branches that open a section are exactly the keys that name a section kind, with that kind |
| Sectionizer.NextAfter | compilator_8_bit/compiler/api/parser.py:69-174 | where the scan resumes after a line is strictly after it and within the input |
| Sectionizer.Step | compilator_8_bit/compiler/api/parser.py:69-180 | one turn moves forward, and a record it emits starts at the current line and ends before the resume point |
| Sectionizer.StepOfOpener | compilator_8_bit/compiler/api/parser.py:71-174 | a section-opening line appends exactly the record from itself to the line before the resume point |
| Sectionizer.StepOfNonOpener | compilator_8_bit/compiler/api/parser.py:176-180 | a line that opens no section appends nothing and the scan moves to the next line |
| Sectionizer.Scan | compilator_8_bit/compiler/api/parser.py:68-180 | the records are in increasing order, pairwise disjoint, and inside `offset + i + 1 .. offset + n` |
| Sectionizer.Sectionize | compilator_8_bit/compiler/api/parser.py:61-184 | empty input fails; a result is ordered, disjoint and inside `counter_start + 1 .. counter_start + n` |
| Sectionizer.ClassifiedIsClassifyAll | compilator_8_bit/compiler/api/parser.py:38-43 | any per-line classification equals `ClassifyAll` |
| Sectionizer.BalancedEndIsFirstBalancePoint | compilator_8_bit/compiler/api/parser.py:120-141 | a procedure or `asm(` construct ends at the first line where the count, started at the first line holding a bracket, reaches 0 or less; no end iff there is no such line |
| Sectionizer.BalancedEndFails | compilator_8_bit/compiler/api/parser.py:134-138 | a count that stays positive to the last line gives no end |
| Sectionizer.BalancedEndStops | compilator_8_bit/compiler/api/parser.py:134-138 | the construct ends at its balance point |
| Sectionizer.AfterKeyMeetsConstruct | compilator_8_bit/compiler/api/parser.py:71-79 | `#if`, `/*` and `__asm` end at the first terminator line, inclusive, with no nesting; failure iff there is none |
| Sectionizer.AfterRunMeetsConstruct | compilator_8_bit/compiler/api/parser.py:81-102 | a run resumes at the first line of another kind, which is classified again; failure iff the run reaches the end |
| Sectionizer.NextAfterMeetsConstruct | compilator_8_bit/compiler/api/parser.py:69-174 | the resume point of an opening line is just past the end of its construct; none when the construct never ends |
| Sectionizer.StepMeetsConstruct | compilator_8_bit/compiler/api/parser.py:69-180 | a turn opens nothing and moves on, or emits the section of the line's kind ending where its construct ends, or fails |
| Sectionizer.ScanRecordsAreConstructs | compilator_8_bit/compiler/api/parser.py:61-180 | every emitted record is the section opened by some line, of its kind and extent |
| Sectionizer.ScanCoversEveryOpener | compilator_8_bit/compiler/api/parser.py:61-180 | every section-opening line lies inside some emitted record |
| Sectionizer.NonOpenerStartsNoRecord | compilator_8_bit/compiler/api/parser.py:176-180 | a line that opens no section starts no record |
| Sectionizer.BraceAsmOpensNoSection | compilator_8_bit/compiler/api/parser.py:120 | a brace-form `asm` line never starts a section |
| Sectionizer.Shifted | compilator_8_bit/compiler/api/parser.py:28-31 | shifting keeps each record's kind and adds the offset to both line numbers |
| Sectionizer.SectionizeOffset | compilator_8_bit/compiler/api/parser.py:28-31 | parsing with offset `d` succeeds iff parsing with 0 does, and gives the same records shifted by `d` |
| Sectionizer.DeltaIsOpenMinusClose | compilator_8_bit/compiler/api/parser.py:52-59 | a line's depth change is its opening brackets minus its closing ones |
| Sectionizer.TrailingRunFails | compilator_8_bit/compiler/api/parser.py:85-88 | a directive, variable or `//` run that reaches the last line makes the parse fail |
| Sectionizer.SingleRunInputFails | compilator_8_bit/compiler/api/parser.py:81-102 | an input that is one run has no result |
| Sectionizer.EmitsStep | compilator_8_bit/compiler/api/parser.py:61-180 | one turn appends its record and the scan goes on, or it raises and the scan fails |
| Sectionizer.ScanIsEmits | compilator_8_bit/compiler/api/parser.py:61-184 | a completed scan returns exactly the records appended |
| Sectionizer.BracketBalanceCounts | compilator_8_bit/compiler/api/parser.py:52-59 | `__count_brackets` is the number of `bracket_type` elements minus the number of others |
| Parsing.Parser.constructor | compilator_8_bit/compiler/api/parser.py:28-36 | the counter starts at `counter_start`, `line_exists` is true, `data` and the scratch fields are empty |
| Parsing.Parser.ParseLine | compilator_8_bit/compiler/api/parser.py:38-43 | `__parse_line` returns the first-match classification of the line |
| Parsing.Parser.CountBrackets | compilator_8_bit/compiler/api/parser.py:52-59 | the loop returns +1 per `bracket_type` element and -1 per other |
| Parsing.Parser.SkipToKey | compilator_8_bit/compiler/api/parser.py:74-77 | the inner loop stops past the first line classified `k`, or fails when lines run out |
| Parsing.Parser.SkipRun | compilator_8_bit/compiler/api/parser.py:85-88 | the inner loop stops at the first line of another kind, or fails at the end |
| Parsing.Parser.SkipToBracket | compilator_8_bit/compiler/api/parser.py:128-131 | the loop stops at the first line holding a bracket, or fails |
| Parsing.Parser.SkipBalanced | compilator_8_bit/compiler/api/parser.py:124-138 | the bracket loops stop past the line that balances the count, or fail |
| Parsing.Parser.Turn | compilator_8_bit/compiler/api/parser.py:69-174 | one turn of the outer loop does what `Sectionizer.Step` describes, to the state and the appended record |
| Parsing.Parser.OneLine | compilator_8_bit/compiler/api/parser.py:104-108 | a `/* ... */` line appends a one-line comment section |
| Parsing.Parser.ToTerminator | compilator_8_bit/compiler/api/parser.py:71-79 | a terminator construct appends the section up to its terminator line |
| Parsing.Parser.ThroughRun | compilator_8_bit/compiler/api/parser.py:81-102 | a run appends one section over the run, and `continue` re-reads the line that ended it |
| Parsing.Parser.ThroughBalanced | compilator_8_bit/compiler/api/parser.py:120-164 | a procedure or `asm(` appends the section up to its balancing line |
| Parsing.Parser.Close | compilator_8_bit/compiler/api/parser.py:45-50 | `__append_data` appends exactly the record of the scratch fields |
| Parsing.Parser.ParseSourceCode | compilator_8_bit/compiler/api/parser.py:61-184 | empty input fails; otherwise the result succeeds iff `Sectionize` does and equals the old data followed by its records |
| Models.FolderTextId | compilator_8_bit/compiler/models.py:15-16 | a folder's text starts with its id, which reads back |
| Models.FileTextParts | compilator_8_bit/compiler/models.py:30-31 | a file's text starts with its id and ends with its folder's text and `)` |
| Models.SectionTextParts | compilator_8_bit/compiler/models.py:51-52 | a section's text starts with its id and ends with `), ` and its type name |
| Sections.Keep | compilator_8_bit/compiler/api/section.py:12-13 | a filter keeps exactly the rows that pass, never more rows than before |
| Sections.FirstWhere | compilator_8_bit/compiler/api/section.py:73 | the row `next(filter(...))` returns: a passing row at a position before which no row passes; `None` iff none passes |
| Sections.ClearedRows | compilator_8_bit/compiler/api/section.py:37-42 | each row is cleared in place and the length stays (what clearing means: `ClearEffect`) |
| Sections.StatusDataRows | compilator_8_bit/compiler/api/section.py:44-53 | each row gets `update_status_data` in place and the length stays (which rows change and how: `StatusDataEffect`) |
| Sections.StatusRows | compilator_8_bit/compiler/api/section.py:55-60 | each row gets `update_status` in place and the length stays (the null fill: `StatusFillEffect`) |
| Sections.KeepLaminar | compilator_8_bit/compiler/api/section.py:15-17 | dropping rows keeps the table laminar |
| Sections.WithoutFileLaminar | compilator_8_bit/compiler/api/section.py:15-17 | `delete` keeps the table laminar |
| Sections.WithoutRangeLaminar | compilator_8_bit/compiler/api/section.py:100-102 | `delete_section` keeps the table laminar |
| Sections.SameRangesLaminar | compilator_8_bit/compiler/api/section.py:37-60 | rewriting rows without moving them keeps the table laminar |
| Sections.AppendLaminar | compilator_8_bit/compiler/api/section.py:19-35 | a row compatible with every row of its file keeps the table laminar |
| Sections.ClashIffIncompatible | compilator_8_bit/compiler/api/section.py:111-112 | for `start <= end`, the conflict query finds a row iff the two ranges cannot coexist |
| Sections.CreateOutcome | compilator_8_bit/compiler/api/section.py:107-112 | `ValidateRange` and `CreateError`: out-of-range or reversed ranges give the range error, clashes then give the conflict error; success iff the range is in `1..total_lines`, compatible with the file's rows, and the type is named and known |
| Sections.CreateKeepsLaminar | compilator_8_bit/compiler/api/section.py:19-35 | a successful `create` keeps laminarity; the new row has the range and type, no status, and lines `start..end` as snapshot |
| Sections.FileRowsAppend | compilator_8_bit/compiler/api/section.py:12-13 | an added row joins the end of its file's rows |
| Sections.CompatiblePairAccepted | compilator_8_bit/compiler/test/test_model_section.py:24-55 | two disjoint or strictly nested ranges are both accepted into an empty file, in either order |
| Sections.DeleteEffect | compilator_8_bit/compiler/api/section.py:15-17 | `delete` leaves no row of the file and every other file's rows in order |
| Sections.DeleteSectionEffect | compilator_8_bit/compiler/api/section.py:100-102 | exactly the file's rows with that range go; no match changes nothing; a laminar table loses at most one row |
| Sections.ClearEffect | compilator_8_bit/compiler/api/section.py:37-42 | no row of the file keeps a status or status text; other rows and all ranges stay |
| Sections.StatusDataEffect | compilator_8_bit/compiler/api/section.py:44-53 | exactly the file's rows containing the line get the status and `content,` appended; two calls append it twice |
| Sections.StatusFillEffect | compilator_8_bit/compiler/api/section.py:55-60 | `update_status` never overwrites a status, and afterwards every row of the file has one |
| Sections.FileRowsLaminar | compilator_8_bit/compiler/api/section.py:12-13 | `get` returns rows of the file only, laminar when the table is |
| Sections.StartIdentifies | compilator_8_bit/compiler/api/section.py:73 | in a laminar file a start line identifies the section |
| Sections.DecorateShape | compilator_8_bit/compiler/api/section.py:62-98 | `Decorate`, one line's dictionary: the line keeps its text; `end_div` iff some section ends there; without a section starting there the range is 0, 0 and the texts are empty (the opening line: `DecorateOpening`) |
| Sections.DecorateOpening | compilator_8_bit/compiler/api/section.py:73-84 | the line where section `x` starts shows `x`'s range, type and status name, and `code-section-inner` iff another section strictly contains it |
| Sections.SectionApi.constructor | compilator_8_bit/compiler/api/section.py:6-10 | the file's lines are its text split on newlines |
| Sections.SectionApi.Delete | compilator_8_bit/compiler/api/section.py:15-17 | the table becomes the rows of other files; laminarity is kept |
| Sections.SectionApi.DeleteSection | compilator_8_bit/compiler/api/section.py:100-102 | the table loses the file's rows with exactly this range; laminarity is kept |
| Sections.SectionApi.Create | compilator_8_bit/compiler/api/section.py:19-35 | the error is what `CreateError` says; on success exactly one row is appended and the id advances; on failure nothing changes |
| Sections.SectionApi.ClearStatusData | compilator_8_bit/compiler/api/section.py:37-42 | the table becomes `ClearedRows`; laminarity is kept |
| Sections.SectionApi.UpdateStatusData | compilator_8_bit/compiler/api/section.py:44-53 | an unknown status fails and changes nothing; otherwise the table becomes `StatusDataRows` |
| Sections.SectionApi.UpdateStatus | compilator_8_bit/compiler/api/section.py:55-60 | an unknown status fails and changes nothing; otherwise the table becomes `StatusRows` |
| Sections.SectionApi.GetSourceCodeEnriched | compilator_8_bit/compiler/api/section.py:62-98 | one dictionary per line, in order, each `Decorate` of the file's sections and the line number from 1 |
| Sections.SectionApi.EnrichLine | compilator_8_bit/compiler/api/section.py:66-97 | the loop body computes `Decorate` for its line |
| CompilerApi.Compiler.Configured | compilator_8_bit/compiler/api/compiler.py:18-27 | a five-argument compiler can compile and keeps its settings and uid |
| CompilerApi.Compiler.FromUid | compilator_8_bit/compiler/api/compiler.py:28-29 | a one-argument compiler cannot compile |
| CompilerApi.Compiler.Compile | compilator_8_bit/compiler/api/compiler.py:31-45 | succeeds iff the compiler can compile, answering its uid; otherwise fails with "Initialize compiler properly!" |
| CompilerApi.Dashed | compilator_8_bit/compiler/api/compiler.py:108-112 | each option gets `--` in front, in order (the resulting string: `FlagsJoin`, `OptionsRoundTrip`) |
| CompilerApi.FlagsJoin | compilator_8_bit/compiler/api/compiler.py:104-114 | the accumulated ` --o` flags after a head are the head and the dashed options joined by spaces |
| CompilerApi.FlagsAppend | compilator_8_bit/compiler/api/compiler.py:104-114 | the flags of two lists are the flags of each, concatenated |
| CompilerApi.OptionsJoin | compilator_8_bit/compiler/api/compiler.py:104-114 | the option string is its words joined by single spaces |
| CompilerApi.OptionsRoundTrip | compilator_8_bit/compiler/api/compiler.py:104-114 | `GetOptions`, the option string: without spaces in the options, splitting it gives `--std-`standard, `-m`processor, then each optimization and dependent option, in order |
| CompilerApi.Diagnostics | compilator_8_bit/compiler/api/compiler.py:52-59 | which diagnostics appear: one per fragment that starts with digits, carrying those digits and the fragment, and no other (order and repetitions: `DiagnosticsInOrder`) |
| CompilerApi.DiagnosticsInOrder | compilator_8_bit/compiler/api/compiler.py:52-59 | diagnostics keep stderr order and repetitions: two stretches give their lists joined, and one fragment gives one diagnostic iff it starts with digits |
| CompilerApi.StatusMeaning | compilator_8_bit/compiler/api/compiler.py:47-66 | `CompilationStatuses`: "Does not compile" iff no assembly; "Compiled with warnings" iff assembly and some tagged fragment starts with a number; otherwise "Compiled without warnings" |
| CompilerApi.UntaggedHasNoDiagnostics | compilator_8_bit/compiler/api/compiler.py:47-52 | stderr without a `source.c:` tag yields no diagnostic |
| CompilerApi.EnrichError | compilator_8_bit/compiler/api/compiler.py:157-172 | one record per line |
| CompilerApi.EnrichErrorLines | compilator_8_bit/compiler/api/compiler.py:157-172 | `ErrorLineNumber` inside `EnrichError`: each record keeps its line; `source.c:<n>` followed by a non-digit refers to line `n`; a line not starting `source` refers to none; a non-zero line number only comes from a line matching `^source.c:\d` |
| CompilerApi.ErrorLineDigits | compilator_8_bit/compiler/api/compiler.py:164-167 | any digit run after `source`, a non-newline character and `c:` (leading zeros included) gives `int` of those digits when the text after does not continue the number |
| CompilerApi.ErrorLineRoundTrip | compilator_8_bit/compiler/api/compiler.py:165-167 | the number written after the tag reads back |
| CompilerApi.AsmListing | compilator_8_bit/compiler/api/compiler.py:129-155 | one record per line, each as the state machine reads it |
| CompilerApi.EnrichAsm | compilator_8_bit/compiler/api/compiler.py:129-155 | the loop with its `is_body` toggle yields `AsmListing` |
| CompilerApi.EnrichAsmLine | compilator_8_bit/compiler/api/compiler.py:139-154 | one turn yields the line's record and flips the state exactly at a marker |
| CompilerApi.AsmRowMeaning | compilator_8_bit/compiler/api/compiler.py:138-155 | every line keeps its text; exactly marker lines open a block; a source line appears only on a `;` comment read in a body |
| CompilerApi.MarkersAlternate | compilator_8_bit/compiler/api/compiler.py:140-145 | the first marker opens `asm-header`/`before`, and consecutive markers get opposite positions |
| CompilerApi.FirstMarkerOpensHeader | compilator_8_bit/compiler/api/compiler.py:136-142 | lines before the first marker are read in a body, and the first marker opens a header |
| CompilerApi.TaggedNumber | compilator_8_bit/compiler/api/compiler.py:151 | after the tag, spaces are skipped and the number reads back |
| CompilerApi.AsmCommentLine | compilator_8_bit/compiler/api/compiler.py:146-152 | `;<spaces>source.c:<spaces><n>` refers to line `n` in a body and to none in a header |
| CompilerApi.CommentRow | compilator_8_bit/compiler/api/compiler.py:146-152 | a non-marker comment opens no block and refers to a line only when read in a body |
| CompilerApi.GetAndDeleteAsm | compilator_8_bit/compiler/api/compiler.py:68-80 | with a readable listing, `(True, enriched assembly)`; otherwise `(False, enriched stderr)` |
| CompilerApi.AsmCodes | compilator_8_bit/compiler/api/compiler.py:141-154 | the code column, one entry per row, in order |
| CompilerApi.ErrorTexts | compilator_8_bit/compiler/api/compiler.py:168-171 | the text column, one entry per row, in order |
| CompilerApi.ListingsKeepText | compilator_8_bit/compiler/api/compiler.py:73-79 | either listing has one row per line, and joining its text column gives back the file |
| Files.IdPosition | compilator_8_bit/compiler/api/file.py:6-8 | `get` by primary key, as `FileIndex` over files and `FolderIndex` over folders (folder.py:5-7): the position of the first record with that id, -1 iff there is none |
| Files.SourceLines | compilator_8_bit/compiler/api/file.py:14-16 | `split("\n")` gives at least one line (no newline in a line and the join back: `SourceLinesRoundTrip`) |
| Files.SourceLinesRoundTrip | compilator_8_bit/compiler/api/file.py:14-16 | the lines join back to the text |
| Files.DeleteLinesEffect | compilator_8_bit/compiler/api/file.py:40-45 | `DeleteLines`: for `start >= 1`, exactly lines `start..end` (clipped) go, the rest stay in order, and re-splitting the new text gives them back (the text is empty when none survive); past the end nothing changes |
| Files.DeleteLinesCount | compilator_8_bit/compiler/api/file.py:40-45 | the number of lines removed is the number of existing lines in `start..end` |
| Files.FileApi.GetSourceCodeSplitted | compilator_8_bit/compiler/api/file.py:14-16 | the file's text split on newlines, which joins back; `DoesNotExist` iff there is no such file |
| Files.FileApi.Create | compilator_8_bit/compiler/api/file.py:18-32 | a missing folder or a disabled one fails and stores nothing; otherwise one enabled file with the given fields, description `""` by default, and the next id |
| Files.FileApi.Delete | compilator_8_bit/compiler/api/file.py:34-38 | soft delete: only `enabled` of that file becomes false |
| Files.FileApi.DeleteSection | compilator_8_bit/compiler/api/file.py:40-45 | only that file's text changes, to `DeleteLines` of it |
| Files.StoredParent | compilator_8_bit/compiler/api/folder.py:10-12 | parent id 0 is stored as none, any other as itself |
| Files.FolderApi.Create | compilator_8_bit/compiler/api/folder.py:9-25 | parent 0 makes a root; a missing or disabled parent fails and stores nothing; otherwise one enabled folder and its id, name and parent are answered |
| Files.FolderApi.Delete | compilator_8_bit/compiler/api/folder.py:27-31 | soft delete: only `enabled` of that folder becomes false |
| FolderTrees.FolderEntries | compilator_8_bit/compiler/api/folder_tree.py:19-24 | one folder entry per folder, in order, not a file, without children yet (what the tree then shows: `TraverseShows`) |
| FolderTrees.FileEntries | compilator_8_bit/compiler/api/folder_tree.py:45-50 | one file entry per file, in order, marked as a file (their place in a folder: `ExpandShows`) |
| FolderTrees.RootFolders | compilator_8_bit/compiler/api/folder_tree.py:16-17 | which folders are roots: exactly the enabled folders without a parent (store order: `RootFoldersInOrder`) |
| FolderTrees.RootFoldersInOrder | compilator_8_bit/compiler/api/folder_tree.py:16-17 | the root filter keeps store order and repetitions: it distributes over concatenation and keeps one folder iff it is an enabled root |
| FolderTrees.SubFolders | compilator_8_bit/compiler/api/folder_tree.py:30-31 | which folders are listed: exactly the enabled folders with that parent (store order: `SubFoldersInOrder`) |
| FolderTrees.SubFoldersInOrder | compilator_8_bit/compiler/api/folder_tree.py:30-31 | the subfolder filter keeps store order: it distributes over concatenation and keeps one folder iff it is an enabled child of the parent |
| FolderTrees.FolderFiles | compilator_8_bit/compiler/api/folder_tree.py:43 | which files are listed: exactly the enabled files of that folder (store order: `FolderFilesInOrder`) |
| FolderTrees.FolderFilesInOrder | compilator_8_bit/compiler/api/folder_tree.py:43 | the file filter keeps store order: it distributes over concatenation and keeps one file iff it is an enabled file of the folder |
| FolderTrees.TraverseShows | compilator_8_bit/compiler/api/folder_tree.py:27-53 | `Traverse`: a traversal within the depth keeps the siblings in order and shows each as `Shown` says |
| FolderTrees.ExpandShows | compilator_8_bit/compiler/api/folder_tree.py:28-52 | `Expand`: an expanded folder keeps its id and name and lists its enabled subfolders, expanded, then its enabled files; `has_children` iff the list is non-empty |
| FolderTrees.FolderTree.constructor | compilator_8_bit/compiler/api/folder_tree.py:5-7 | the tree reads the folder and file tables |
| FolderTrees.FolderTree.FindRoots | compilator_8_bit/compiler/api/folder_tree.py:14-25 | one entry per enabled root folder, in store order |
| FolderTrees.FolderTree.TraverseSiblings | compilator_8_bit/compiler/api/folder_tree.py:27-53 | the loop and its recursion yield `Traverse` |
| FolderTrees.FolderTree.ExpandEntry | compilator_8_bit/compiler/api/folder_tree.py:28-52 | one loop body yields `Expand` |
| FolderTrees.FolderTree.GetFolderStructure | compilator_8_bit/compiler/api/folder_tree.py:9-12 | the roots in order, each shown as `Shown` says, or none past the depth |
| Views.DependentOptionsCoverForm | compilator_8_bit/compiler/views.py:49-59 | `GetDependentOptions`: every processor of the form except `""` has options, nothing else does; `ds400` shares `ds390`'s list and the Z80 family shares `z80`'s |
| Views.Parse | compilator_8_bit/compiler/views.py:98-100 | a fresh parser yields `Sectionize` |
| Views.RescanInside | compilator_8_bit/compiler/views.py:97-100 | a body's re-parse covers lines `start + 1..end` with file line numbers and spans fewer lines than the procedure |
| Views.VisitStepShrinks | compilator_8_bit/compiler/views.py:93-102 | one turn only appends, keeps records in the file and leaves less work, so the loop ends |
| Views.Visit | compilator_8_bit/compiler/views.py:94-102 | one turn is `VisitStep` and keeps the loop's facts |
| Views.ParseFile | compilator_8_bit/compiler/views.py:88-102 | the nested pass yields `NestedParse`: the top-level records first, every multi-line procedure followed later by its re-parse, every later record coming from an earlier procedure's re-parse, all inside the file; on failure the top-level parse failed or the walk reached a multi-line procedure of the file whose body parse fails (`FailsAt`) |
| Views.FailingBody | compilator_8_bit/compiler/views.py:98-100 | where the walk fails, the failing body is the non-empty lines `start + 1..end` of a multi-line procedure of the file, and its parse fails |
| Views.SaveSections | compilator_8_bit/compiler/views.py:104-107 | the table becomes the other files' rows plus the created rows; every stored record passed `create` on the table as it then was, and the first that did not ends the loop with its error |
| Views.StoredRows | compilator_8_bit/compiler/views.py:104-107 | after the delete and inserts the file's rows are exactly the inserted ones; other files keep theirs |
| Views.StoredSections | compilator_8_bit/compiler/views.py:104-107 | after a full save the file's sections are the records, in order, with their type and range, no status, and their lines as snapshot |
| Views.ParseFileView | compilator_8_bit/compiler/views.py:86-126 | a failing parse answers 400 and changes nothing; otherwise the file's sections are deleted and the records inserted in order with consecutive ids, each passing `create` on the table as it then was, until the first failing `create`, which answers 400 with the earlier inserts kept; the listing comes iff every record is stored, one decorated line per source line |
| Views.MarkedRow | compilator_8_bit/compiler/views.py:352-353 | each row collects the diagnostics inside it: their texts with commas, in order, and the status if any |
| Views.MarkDiagnostics | compilator_8_bit/compiler/views.py:352-353 | all calls share one status: it fails at once and changes nothing, or yields `Marked` |
| Views.CompiledSections | compilator_8_bit/compiler/views.py:349-356 | `Compiled`, the table after both passes: each section of the file has the compile status iff a diagnostic lies inside, else the final status; its status text is exactly its diagnostics' texts in stderr order; warnings only where a diagnostic lies; other files unchanged |
| Views.CompilePost | compilator_8_bit/compiler/views.py:326-361 | a missing field answers 400 and changes nothing; with known statuses the table becomes `Compiled` and the answer redirects to the compile page with the fresh uid; 400 iff a field is missing or a status is unknown, and then the rows hold what the passes did before the unknown status; ids never change |
| Views.DeleteSectionPost | compilator_8_bit/compiler/views.py:311-323 | the file's sections with exactly this range go and no other row changes; a missing file answers 400 and keeps every text; otherwise only that file's text changes, to `DeleteLines` of it, and the answer redirects to its parse page |

## Left out

- Input and output: the database, the file system, the `sdcc` subprocess, `uuid1`, the session, rendering, timestamps and `print`. Compiler output (stderr text, the assembly text, whether it exists) and the fresh uid are parameters.
- Store order: the tables are sequences in insertion order, and a queryset's order is taken to be that order.
- The lookup tables `SectionType` and `SectionStatus` are sets of names.
- A `SectionApi` is built only for an existing file, so the 400 that `SectionApi(id)` raises for a missing file is not modelled.
- The snapshot text a `Section` stores is the list of lines; its `str(list)` rendering is not modelled.
- Regular expressions are written out as predicates. `\d` and `\w` are ASCII here, while Python's are Unicode; `\s` is Python's whitespace set.
- The compiler's settings constructor only models the five-argument and one-argument calls; other argument counts are not modelled.
- Parsing.Parser.ParseSourceCode: does not state the values the scratch fields `section_name`, `start_line` and `end_line` hold after the pass, which only the next call would read.
- FolderTrees.FolderTree.GetFolderStructure: the recursion limit is a `depth` parameter (past it the result is `None`, as Python raises `RecursionError`); it is not proved that a cyclic-free folder table stays within a given depth, nor that each folder appears at most once.
- Views.CompilePost: requires the form's file id to name the section store's file; a file id that names no file (a 400 from the compiler's file lookup) is not modelled.
- Views.DeleteSectionPost and Views.CompilePost: the redirect locations (`ParseLocation`, `CompiledLocation`) are written as `reverse` gives them when the app is mounted at `/`; other mounts are not modelled.
- Views.ParseFileView: takes the file's lines from the section store, which reads the same file; the view's read of the file before parsing is not modelled separately.
- `get_dependent_options` is called only to fill the session, which is not modelled.
