# go-easy-instrumentation: the slog pass and the command line, in Dafny

A model of five parts of go-easy-instrumentation, the tool that rewrites a
Go application's source to add New Relic instrumentation and writes the
changes as a diff.

- **The slog injection pass** (`parser/slog.go`). Statements are scanned in the body of `main`.
  - Each `h := slog.NewTextHandler(...)` is followed by an inserted `NRh := nrslog.WrapHandler(NewRelicAgent, h)`, and one import is recorded for it.
  - Later single-call assignments that pass `h` as an argument get it renamed to `NRh`.
  - The body is a field of a `FuncDecl` class that the loop rewrites. The loop is proved against the function `Instrument`, which computes the pass statement by statement (`Run`).
- **The wrapper constructor** (`internal/codegen/slog.go`, `SlogHandlerWrapper`).
- **The console printer** (`internal/comment/console.go`). A class holds the application root and the buffered entries:
  - `add` appends one formatted entry;
  - `flush` returns the Debug messages it would log and empties the buffer.
- **The `instrument` command's helpers** (`cmd/instrument.go`):
  - the output-file validation and default path;
  - the padding of the step description;
  - the Bubble Tea model's initial state and `Update` transitions.
- **Interactive mode** (`cmd/interactive.go`):
  - the `--exclude` parser;
  - the scan for Go files over an abstract directory tree, pruning excluded directories;
  - the yes/no answer of the prompt.

The modules are:

| module | contents |
|---|---|
| `Wrappers` | `Option` |
| `Seqs` | two generic facts about sequences |
| `Strings` | `strings.Split`, `Join`, `TrimSpace`, `HasSuffix`, `ToLower` |
| `Paths` | `filepath.Ext`, `Join`, `Base` for '/' paths |
| `Ast` | the fragment of the `dst` syntax tree the pass reads and writes |
| `Codegen` | the wrapper constructor |
| `SlogParser` | the pass |
| `SlogProperties` | what the pass guarantees |
| `Console` | the console printer |
| `InstrumentCmd` | the `instrument` command's helpers |
| `Interactive` | interactive mode |

The file system, standard input and the clock do not appear as such:
- `os.Stat(filepath.Dir(path))` is an oracle function `statOfDir`.
- `filepath.Walk` runs over an `Entry` tree whose directories list their entries in Walk's (sorted) order.
- The line read by `promptUser` is an `Option<string>`, where `None` is a read error.
- `getPosition(pkg, node, appRoot)` is a function of the application root passed to `Add`.
- `DebugConsoleHeader` is a parameter of `Flush`.

Two behaviours of the code are worth knowing:
- The slog pass is not idempotent. Run on its own output, it wraps the inserted wrapper's handler once more: `SlogProperties.NotIdempotent` proves this.
- `slogMiddlewareCall` assumes without checking that a text handler is assigned to a plain identifier. On any other handler assignment the code as written panics. The model's pass does not wrap such a statement or add an import for it; like any other statement, its call's identifier arguments are renamed once a handler is known. `RunAsWritten` is the pass as written, and `PassAgreesWhereDefined` proves it equal to the model's pass on every body where it does not panic. See Findings.

## Model

| member | source | states |
|---|---|---|
| SlogParser.SlogMiddlewareCallAsWritten | parser/slog.go:16-32 | Where the type assertion succeeds, the matcher returns a nonempty name only for an assignment with one right-hand side that calls `NewTextHandler` of log/slog. The name is that of the first left-hand side. Every other statement gives "". |
| SlogParser.SelectorLhsPanics | parser/slog.go:25 | `cfg.h = slog.NewTextHandler(w, nil)` violates the precondition of the matcher as written: the unchecked `v.Lhs[0].(*dst.Ident)` panics. |
| SlogParser.MatcherAgreesWhereDefined | parser/slog.go:16-32 | The total (checked) matcher gives the same name as the code as written on every statement where the latter does not panic. |
| SlogParser.SlogMiddlewareCall | parser/slog.go:16-32 | The checked matcher the pass uses: the name of the first left-hand side of a text-handler call when that side is an identifier, else "". `MatcherAgreesWhereDefined` ties it to the code as written. |
| SlogParser.RenameStmt | parser/slog.go:63-79 | The renaming of one statement. Its properties are those of `RenameStmtSpec`. |
| SlogParser.RenameStmtSpec | parser/slog.go:63-79 | Renaming changes only single-call assignments, and in them only identifier arguments naming a known handler. Such an argument becomes `"NR" + name` with its import path kept. Left-hand side, token, function, decorations and all other arguments are kept. |
| SlogParser.RenameHandlerArgs | parser/slog.go:67-73 | The argument loop: same number of arguments; argument j is renamed exactly when it is an identifier in `handlerNames`, otherwise kept. |
| SlogParser.RenameCallArgs | parser/slog.go:63-79 | The renaming of one statement equals `RenameStmt`. |
| SlogParser.Manager.AddImport | parser/slog.go:58 | Records one `addImport` call at the end of the import log. |
| SlogParser.Step | parser/slog.go:49-80 | One iteration of the pass over one original statement. `MatchedStep`, `RenamedStep` and `KeptStep` tie it to the splice and the renaming of the source. |
| SlogParser.Run | parser/slog.go:47-81 | The pass state after the first k statements. `RunCounts`, `RunPrefix`, `NamesBefore` and `Placement` state what it holds. |
| SlogParser.Instrument | parser/slog.go:47-81 | The body after the pass. `InstrumentLength`, `Placement`, `ForwardOnlyRename` and `OnlyCallAssignmentsRenamed` state its contents. |
| SlogParser.AddedImports | parser/slog.go:56-58 | The `addImport` calls of the pass. `OneImportPerHandler` and `ImportsAreNrslog` state them. |
| SlogParser.StepAsWritten | parser/slog.go:49-80 | One iteration of the loop as written, with the unchecked matcher. Its requires `LhsWellFormed` is the condition under which the type assertion does not panic. `StepAgreesWhereDefined` ties it to `Step`. |
| SlogParser.RunAsWritten | parser/slog.go:47-81 | The pass as written over the first k statements. Its requires, `LhsWellFormed` of each of them, excludes exactly the bodies on which `main` panics. `PassAgreesWhereDefined` proves it equal to `Run`. |
| SlogParser.StepAgreesWhereDefined | parser/slog.go:49-80 | One iteration of the loop as written, on a statement where the type assertion succeeds, gives the same statements, names and imports as a `Step` of the model's pass. |
| SlogParser.PassAgreesWhereDefined | parser/slog.go:16-81 | On every body whose handler assignments all have an identifier on the left, where the unchecked assertion cannot panic, the pass built on the checked matcher equals the pass as written (`RunAsWritten`): same statements, names and imports. |
| SlogParser.CheckedPassDoesNotWrapSelectorHandler | parser/slog.go:25 | On `cfg.h = slog.NewTextHandler(w, nil)`, where the code as written panics, the model's pass does not wrap the statement and adds no import; as the first statement of a body it comes out unchanged. |
| SlogParser.InstrumentSlogHandler | parser/slog.go:39-44 | A node that is not a FuncDecl, or a FuncDecl not named `main`, is left unchanged and no import is recorded. For `main` the body becomes `Instrument(old body)` and the imports of `AddedImports(old body)` are appended. |
| SlogParser.InstrumentMainBody | parser/slog.go:47-81 | The loop over `decl.Body.List` leaves the body `Instrument(original)` and the manager's imports extended by `AddedImports(original)`; its invariant ties index i to the pass state after k original statements, and its measure is the number of unscanned original statements. |
| SlogParser.InstrumentStatement | parser/slog.go:49-80 | One iteration equals one `Step` of the pass. A handler gets its wrapper spliced in after it, its name recorded and its import added, and the index skips the wrapper. After the first handler any other statement is renamed. Before it, the statement is kept. |
| SlogParser.NextStatement | parser/slog.go:48-49 | The statement read at index i is the next original statement. The loop condition `i < len(list)` holds exactly while original statements remain. |
| SlogParser.MatchedStep | parser/slog.go:51-59 | On a text-handler call, the splice `append(list[:i+1], append([w], list[i+1:]...)...)` yields the state after the step. The output grows by two; name and import are appended. |
| SlogParser.RenamedStep | parser/slog.go:60-75 | On any other statement once a handler is known, replacing the statement at i by its renamed form yields the state after the step; names and imports unchanged. |
| SlogParser.KeptStep | parser/slog.go:60 | Before the first handler, other statements are kept; names and imports unchanged. |
| SlogParser.SpliceAfter | parser/slog.go:57 | The splice inserts exactly one statement after position i. |
| SlogProperties.RunCounts | parser/slog.go:48-59 | After k statements the output has k statements plus one per detected handler, and as many imports as handlers. |
| SlogProperties.ImportsAreNrslog | parser/slog.go:56-58 | Every recorded import is the nrslog integration path. |
| SlogProperties.InstrumentLength | parser/slog.go:57 | The final body has the original length plus the number of matched statements. |
| SlogProperties.OneImportPerHandler | parser/slog.go:55-58 | `addImport` is called once per handler, always with the wrapper constructor's path. |
| SlogProperties.RunPrefix | parser/slog.go:48-59 | The pass only appends: its output, names and imports after j statements are prefixes of those after k >= j. |
| SlogProperties.RunOfPrefix | parser/slog.go:48-59 | The state after k statements depends on those k statements only. |
| SlogProperties.NamesBefore | parser/slog.go:47-55 | The names known at statement j are exactly the handlers detected in the statements before j. |
| SlogProperties.Placement | parser/slog.go:48-80 | Original statement j lands at index `|Run(body, j).out|`. A handler call is kept and immediately followed by `SlogHandlerWrapper(h, "NR" + h)`. Any other statement is kept before the first handler and renamed with the earlier handlers after it. |
| SlogProperties.PositionsIncrease | parser/slog.go:57 | Original statements keep their relative order. |
| SlogProperties.UntouchedBeforeFirstHandler | parser/slog.go:60 | A statement before the first handler keeps its index and its value. |
| SlogProperties.ForwardOnlyRename | parser/slog.go:60-75 | An identifier argument x of statement j becomes `"NR" + x` if and only if x was detected as a handler before j; otherwise it is unchanged. So handlers are tracked independently and renaming never looks ahead. |
| SlogProperties.OnlyCallAssignmentsRenamed | parser/slog.go:63-79 | Expression statements and every statement other than a single-call assignment are copied unchanged. |
| SlogProperties.WrapperIsNotAHandler | parser/slog.go:59 | The inserted wrapper is not itself a text-handler call. |
| SlogProperties.WrapperChangedIfScanned | parser/slog.go:59 | Once its handler is known, the wrapper would be changed by renaming if it were scanned, which is why the index skips it. |
| SlogProperties.NotIdempotent | parser/slog.go:48-59 | Running the pass on its own output on a one-handler body changes it again. |
| SlogProperties.ExampleHandlers | end-to-end-tests/slog-examples/main.go:10-11 | The example's two handlers are detected in order, each followed by its wrapper and one nrslog import. |
| SlogProperties.ExampleLoggersRenamed | end-to-end-tests/slog-examples/main.go:12-13 | `slog.New(handler)` becomes `slog.New(NRhandler)` and `slog.New(handler2)` becomes `slog.New(NRhandler2)`. |
| SlogProperties.ExampleLoggers | end-to-end-tests/slog-examples/main.go:12-13 | In the pass over the example, the two loggers are appended renamed. |
| SlogProperties.ExampleCalls | end-to-end-tests/slog-examples/main.go:15-16 | The two logging calls are appended unchanged. |
| SlogProperties.ExampleInstrumented | end-to-end-tests/slog-examples/main.go:8-18 | The whole example after the pass: eight statements, handlers `handler` and `handler2`, two nrslog imports. |
| Codegen.SlogHandlerWrapper | internal/codegen/slog.go:19-48 | The statement has one left-hand side, the identifier `nrHandlerName`, and the token `:=`. Its right-hand side is the single call `WrapHandler` of the nrslog path with arguments `NewRelicAgent` and `handlerName`, and it starts on a new line. The returned import path is the nrslog path. |
| Console.EnableConsolePrinter | internal/comment/console.go:25-29 | A fresh printer whose root is `filepath.Base(applicationPath)` and which has no entries. |
| Console.FormatMessage | internal/comment/console.go:38-61 | The message `add` stores. `MessageLines` and `InfoExample` state its lines. |
| Console.Add | internal/comment/console.go:38-61 | A nil printer is untouched. Otherwise exactly one entry is appended, with the given header and the message `header + ": " + (pos + " " when pos != "") + message` followed by `"\n" + info` for each info in order. The root is unchanged. |
| Console.DebugMessages | internal/comment/console.go:64-75 | What `flush` logs. `DebugMessagesAppend`, `DebugMessagesMembers` and `DebugMessagesBound` state its contents. |
| Console.Flush | internal/comment/console.go:64-75 | A nil printer prints nothing. Otherwise the printed lines are the messages of the Debug entries in insertion order, and the buffer is emptied. |
| Console.DebugMessagesAppend | internal/comment/console.go:69-73 | Flushing two batches prints the first batch's Debug messages, then the second's. |
| Console.DebugMessagesMembers | internal/comment/console.go:69-73 | A message is printed exactly when a buffered entry with the Debug header carries it. |
| Console.DebugMessagesBound | internal/comment/console.go:69-73 | No more lines are printed than there are entries. |
| Console.AddedDebugIsPrintedLast | internal/comment/console.go:60-73 | An entry added with the Debug header is the last line of the next flush. |
| Console.AddedOtherIsNotPrinted | internal/comment/console.go:60-73 | An entry added with another header is never printed. |
| Console.MessageLines | internal/comment/console.go:45-58 | When no part contains a line break, the stored message splits into the first line and then the infos, one per line. |
| Console.InfoExample | internal/comment/console_test.go:36-43 | Header Info, no position, message "message" and info "additionalInfo" give `"Info: message\nadditionalInfo"`. |
| InstrumentCmd.ValidateOutputFile | cmd/instrument.go:47-58 | `validateOutputFile` over the stat oracle. `ValidateOutputFileSpec` states when it accepts. |
| InstrumentCmd.ValidateOutputFileSpec | cmd/instrument.go:47-58 | A path is accepted if and only if it has the ".diff" extension and its directory is not reported missing. A wrong extension gives the extension error. A ".diff" path in a missing directory gives the directory error. |
| InstrumentCmd.ExtensionCheckedFirst | cmd/instrument.go:48-50 | The extension error does not depend on the file system. |
| InstrumentCmd.AcceptedExample | cmd/instrument_test.go:19-23 | `output.diff` in an existing temporary directory is accepted. |
| InstrumentCmd.WrongExtensionExample | cmd/instrument_test.go:24-29 | `output.txt` is rejected for its extension. |
| InstrumentCmd.NoExtensionExample | cmd/instrument_test.go:30-35 | `output` is rejected for its extension. |
| InstrumentCmd.MissingDirectoryExample | cmd/instrument_test.go:36-41 | `/nonexistent/directory/output.diff` is rejected for its directory. |
| InstrumentCmd.SetOutputFilePath | cmd/instrument.go:66-77 | `setOutputFilePath`. `SetOutputFilePathSpec` and `DefaultOutputPath` state its result. |
| InstrumentCmd.SetOutputFilePathSpec | cmd/instrument.go:66-77 | The error is exactly the validation result of the chosen path: the given one, or the default in the application directory when none was given. So a valid path is accepted, and an invalid one gets the error `ValidateOutputFileSpec` names. On an error the path is "". Otherwise the path is a nonempty ".diff" path: the given one, or the default in the application directory when none was given. |
| InstrumentCmd.DefaultOutputPath | cmd/instrument.go:67-69 | The default path has the ".diff" extension and `new-relic-instrumentation.diff` as its base name. |
| InstrumentCmd.DefaultPathHasNoBadExtension | cmd/instrument.go:66-71 | With no path given, the only possible error is the missing directory. |
| InstrumentCmd.DefaultNameIsOneElement | cmd/instrument.go:27 | The default file name is one nonempty path element. |
| InstrumentCmd.DefaultPathExample | cmd/instrument_test.go:72-78 | No path gives `Join(tmp, defaultDiffFileName)` and no error. |
| InstrumentCmd.CustomPathExample | cmd/instrument_test.go:79-85 | A valid custom path is returned unchanged. |
| InstrumentCmd.WrongExtensionPathExample | cmd/instrument_test.go:86-91 | `custom.txt` gives "" and the extension error. |
| InstrumentCmd.MissingDirectoryPathExample | cmd/instrument_test.go:92-97 | `/fake/dir/custom.diff` gives "" and the directory error. |
| InstrumentCmd.Padding | cmd/instrument.go:286-292 | Never negative. It pads a string no wider than the width exactly to the width, and a wider string gets none. |
| InstrumentCmd.PaddingExamples | cmd/instrument_test.go:119-166 | The five rows of the padding table. |
| InstrumentCmd.InitialModel | cmd/instrument.go:105-117 | `initialModel`. `ModelExamples` and `StepsFromInitial` state its fields and the runs from it. |
| InstrumentCmd.Update | cmd/instrument.go:212-252 | `model.Update`. `QuitsExactly`, `UpdateFrame` and `UpdateAllCounts` state its commands and the fields it writes. |
| InstrumentCmd.QuitsExactly | cmd/instrument.go:212-252 | `Update` returns `tea.Quit` if and only if the message is Ctrl+C, an error or completion. It returns `waitForNext` exactly after a package load or a step, the spinner's or the bar's animation exactly on their own ticks, and nil on every other message. |
| InstrumentCmd.UpdateFrame | cmd/instrument.go:228-243 | Each message writes only its own fields. A step message increments the counter by one and sets the description. A package load sets the packages and "Starting instrumentation...". No other message changes the packages, and only these two change the description. An error is stored, completion sets `done`. Total, package path and output file never change. |
| InstrumentCmd.UpdateAllCounts | cmd/instrument.go:232-243 | Over any sequence of messages, the counter grows by the number of step messages, and the model is done exactly when it was or a completion arrived. |
| InstrumentCmd.StepsFromInitial | cmd/instrument.go:105-117 | From the initial model the counter equals the number of steps reported, and the total stays 8. |
| InstrumentCmd.ModelExamples | cmd/instrument_test.go:168-272 | The initial fields, and the tests for Ctrl+C, a step, an error, completion and a package load. |
| Interactive.Exclusions | cmd/interactive.go:15-23 | The exclusions of an `--exclude` value. `ExclusionsWellFormed` and `ExclusionsOfJoin` state its contents. |
| Interactive.ParseExclusions | cmd/interactive.go:15-23 | The parsing loop computes `Exclusions(excludeDirs)`. |
| Interactive.ExclusionsWellFormed | cmd/interactive.go:17-21 | Every exclusion is nonempty, has no space at either end and contains no comma. |
| Interactive.ExclusionsOfAnyValue | cmd/interactive.go:16-17 | The empty-input guard changes nothing: "" splits into one empty piece, which is dropped. |
| Interactive.ExclusionsConcat | cmd/interactive.go:17-22 | The pieces on either side of a comma are parsed independently, in order. |
| Interactive.ExclusionsOfName | cmd/interactive.go:17-21 | A name padded with spaces is one exclusion. |
| Interactive.ExclusionsOfJoin | cmd/interactive.go:15-23 | Joining comma-free pieces with commas and parsing gives back the pieces, trimmed, with empty ones dropped. |
| Interactive.ThreePieces | cmd/interactive.go:17-22 | Three pieces contribute their trimmed text in order, unless empty. |
| Interactive.SingleFolderExample | cmd/interactive_test.go:142-146 | "vendor" gives ["vendor"]. |
| Interactive.MultipleFoldersRow | cmd/interactive_test.go:147-156 | Three names, plain or padded with spaces, joined by commas give the three names. |
| Interactive.TrailingCommaRow | cmd/interactive_test.go:157-161 | A trailing comma adds nothing. |
| Interactive.OnlyCommasExample | cmd/interactive_test.go:162-166 | ",," gives no exclusion. |
| Interactive.IsExcluded | cmd/interactive.go:61-71 | The loop over the excluded names answers SkipDir exactly when the base name is one of them. |
| Interactive.Walk | cmd/interactive.go:55-77 | One visit appends to the collected files exactly `GoFiles(path, e, excluded)`. |
| Interactive.WalkChildren | cmd/interactive.go:55-77 | Walking a directory's entries in order appends what each collects, in order. |
| Interactive.GoFiles | cmd/interactive.go:53-79 | The paths the scan collects. `GoFilesSelects` ties it to the reference definition `SelectedPaths`. |
| Interactive.ScanGoFiles | cmd/interactive.go:53-79 | The result is `GoFiles(root, tree, excluded)`. |
| Interactive.GoFilesSelects | cmd/interactive.go:55-77 | Equivalent reference definition: the scan collects exactly the files that end in ".go" and lie in no excluded directory, the walk's root included, in walk order. |
| Interactive.GoFilesEndInGo | cmd/interactive.go:73-75 | Every collected path ends in ".go". |
| Interactive.ExcludingMoreOnlyRemoves | cmd/interactive.go:61-70 | Excluding more names only removes paths. |
| Interactive.ExcludingAbsentNames | cmd/interactive.go:63-70 | Excluded names that no directory above any file carries change nothing. In particular, nil and empty lists give the same result. |
| Interactive.GoFilesCount | cmd/interactive.go:73-75 | How many paths are collected does not depend on the paths. |
| Interactive.FixtureCount | cmd/interactive_test.go:13-45 | The count on the test's tree, for any exclusion list that spares the root: one per Go file whose directories are all spared. |
| Interactive.FixtureCounts | cmd/interactive_test.go:47-127 | The test's rows: 6 files with no exclusion, 5 without vendor, 4 without vendor and testdata, 5 without deep (two levels down), 6 for a name that matches no directory. |
| Interactive.PromptUser | cmd/interactive.go:81-90 | The answer of `promptUser`. `PromptAccepts` spells out the accepted lines. |
| Interactive.PromptAccepts | cmd/interactive.go:84-89 | The prompt accepts exactly a line that, trimmed, is "y" or "yes" in any mix of cases. A read error declines. |
| Interactive.PromptIgnoresSpaces | cmd/interactive.go:88 | Spaces around the answer, the line break included, do not change it. |
| Strings.Split | cmd/interactive.go:17 | `strings.Split` with a one-character separator. It always gives at least one piece. `SplitSpec` and `SplitJoin` state its pieces. |
| Strings.Join | cmd/interactive.go:17 | `strings.Join`, the inverse of `Split` by `SplitSpec` and `SplitJoin`. |
| Strings.SplitSpec | cmd/interactive.go:17 | No piece of `strings.Split` contains the separator, and joining the pieces gives the input back. |
| Strings.SplitJoin | cmd/interactive.go:17 | Splitting the join of separator-free pieces gives the pieces back. |
| Strings.IsSpace | cmd/interactive.go:18 | `unicode.IsSpace`, by which `strings.TrimSpace` trims: tab, line feed, vertical tab, form feed, carriage return, space, U+0085 and U+00A0, then U+1680, U+2000–U+200A, U+2028, U+2029, U+202F, U+205F and U+3000. This is exactly Go's set. |
| Strings.TrimSpace | cmd/interactive.go:18 | `strings.TrimSpace`. `TrimSpaceSpec` and `TrimSpaceAround` state its result. |
| Strings.TrimSpaceSpec | cmd/interactive.go:18 | `strings.TrimSpace` leaves no space at either end. |
| Strings.TrimSpaceAround | cmd/interactive.go:88 | Spaces added around a string do not change its trimmed form. |
| Strings.ToLower | cmd/interactive.go:88 | Same length, each character lower-cased. |
| Strings.HasSuffix | cmd/interactive.go:73 | `strings.HasSuffix`: the suffix is the last \|suffix\| characters. `HasSuffixSpec` states its meaning. |
| Strings.HasSuffixSpec | cmd/interactive.go:73 | A string ends with a suffix exactly when it is some string followed by that suffix. |
| Paths.Ext | cmd/instrument.go:48 | `filepath.Ext` is "" or a suffix of the path that starts with '.', with no other '.' and no '/'. It is "" only when every '.' is followed by a '/'. |
| Paths.JoinPath | cmd/instrument.go:68 | The joined path ends with the joined element. |
| Paths.Base | internal/comment/console.go:27 | `filepath.Base` is nonempty, and "/" or free of '/'. |
| Paths.BaseOfJoin | internal/comment/console.go:27 | The base name of a joined path is the joined element. |

## Left out

- `Instrument`, `Init` and `waitForNext`: a goroutine feeding a channel, the Bubble Tea program loop and `os.Exit`, i.e. concurrency and UI.
- `instrumentPackages`: its code is not part of this model.
- `View`, the spinner and the progress bar: UI rendering and floating point. Their commands are abstracted as the `Cmd` values `Animate` and `WaitForNext`. `SetPercent` is not modelled.
- `decorator.Load`, the package loader and the `InstrumentationManager` steps: their code is not part of this model. Of the manager, only the log of `addImport` calls is kept.
- `cmd/root.go` and the flag registration in `init()`: command wiring only.
- `WriteAll`: its only effect is the call to `flush`, which is modelled.
- I/O:
  - `os.Stat` is an oracle.
  - `filepath.Walk` runs over an abstract tree that is always readable, so its error results are not modelled.
  - `log.Println` becomes the returned lines.
  - Standard input becomes the `Option<string>` line.
  - The Walk callback's `err` argument is never set.
- Sorting of directory entries: `Entry` lists them already in Walk's lexical order.
- The package-level `printer` variable: `EnableConsolePrinter` returns the printer instead of assigning a global.
- The in-place `Ident.Name` write is modelled as replacing the statement by a renamed copy, so sharing of identifier nodes between statements is not modelled. The body list is rewritten in a local and stored into the declaration when the loop ends.
- `SlogParser.InstrumentSlogHandler`: the pass uses the checked matcher, so it does not model the panic of the source on a text handler assigned to anything but an identifier. It does not wrap such a statement or add an import for it; like any other statement, its call's identifier arguments are renamed once a handler is known. `RunAsWritten` and `PassAgreesWhereDefined` cover the code as written on every body where it does not panic.
- The `dst` tree is reduced:
  - identifiers, calls and "other" expressions;
  - assignments, expression statements and "other" statements;
  - the Before/After line decorations.
- `filepath.Join` is modelled for a clean directory and one plain element, without `Clean`. `filepath.Dir` lives inside the stat oracle.
- `Strings.ToLower`: lower-cases ASCII letters only, not full Unicode case mapping.
- `InstrumentCmd.Padding`: counts characters, whereas Go's `len` counts bytes. The two agree on ASCII descriptions.
- The difference between nil and empty slices is not modelled; both are the empty sequence.
- `InstrumentCmd.Update`:
  - `ErrorMsg` stands for every message that is an error value, since Go's `errMsg` case matches any error.
  - Key messages other than Ctrl+C fall through to `return m, nil`.
  - `UpdateAll` keeps folding messages after a `Quit`, whereas the program would stop.
- `Interactive.PromptUser`: reading that ends before a line break counts as a read error, as `ReadString` reports one. So a final "y" without a newline declines.
- `Interactive.MultipleFoldersRow` and `Interactive.TrailingCommaRow`: these state the test rows for any names of that shape, on the value `Join(pieces, ',')`, rather than on the literal strings of the test table.
- `Interactive.FixtureCounts`: states the counts of the test, not the lists of paths.

## Findings

| source | as written | input that shows it | evidently intended | confidence | as-written member | corrected member |
|---|---|---|---|---|---|---|
| parser/slog.go:25 | `v.Lhs[0].(*dst.Ident).Name` asserts without checking that the handler is assigned to an identifier | `cfg.h = slog.NewTextHandler(w, nil)` in `main`: the left-hand side is a selector, so the type assertion panics | leave such a statement unwrapped and add no import for it | not executed | SlogParser.SlogMiddlewareCallAsWritten, SlogParser.RunAsWritten, SlogParser.SelectorLhsPanics | SlogParser.SlogMiddlewareCall, SlogParser.MatcherAgreesWhereDefined, SlogParser.PassAgreesWhereDefined, SlogParser.CheckedPassDoesNotWrapSelectorHandler |
