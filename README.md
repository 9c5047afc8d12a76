# Epitech coding-style extension — verified model

This is a Dafny model of the analysis pipeline in the VS Code extension that
runs the Epitech coding-style checker on a workspace. It covers four parts:

- **Report parser.** It turns the checker's report into findings per file.
  Each report line reads `<path>:<line>:<SEVERITY>:<CODE>:<text>`. Test
  files and files matched by `.gitignore` patterns are skipped. There are
  two revisions: `CoreParser` models `src/core/parser.ts`, and
  `LegacyParser` models `src/parser.ts`. Both share `ReportFormat`,
  `JsString` and `Glob`.
- **Severity and diagnostic mapping.** `Diagnostics` models
  `src/core/diagnostics.ts`, including its diagnostic collection keyed by
  document URI. `LegacyDiagnostics` models `src/diagnostics.ts`.
- **Run coordinator.** This is the single-flight scheduler of an analysis.
  It is a class over the `isAnalysisRunning` flag and a single
  `debounceTimer` slot. `AnalyzerService.AnalyzerService` models
  `src/services/analyzer-service.ts`, `CoreAnalyzer.Analyzer` models
  `src/core/analyzer.ts`, and the shared parts are in `Analysis`.
- **Docker gate.** `Docker` models `src/core/docker.ts`:
  - a freshness check on the stored image-pull time, which is updated only
    on a pull that exits with 0;
  - how the container's exit is read;
  - the path quoting and the `docker run` argument list.

The constants come from `src/utils/constants.ts` and live in `Constants`.
`src/core/docker.ts` and `src/core/diagnostics.ts` import
`../config/constants`, which is not part of this model. It is taken to hold
the same values.

## How the model is built

- **Files and processes are parameters.**
  - The report and `.gitignore` texts are `Option<string>`; `None` means the
    file does not exist.
  - How a `docker` process ended is a `ProcessOutcome`: an exit code (or
    `None` for a signal) plus the stderr chunks, or a spawn error.
  - The clock is a parameter `now`.
- **The parse loop is imperative.** `ReportFormat.CollectFindings` is a
  `while` loop that appends to a map, as `parseReport` does. It is proved
  equal to the specification function `ReportFormat.FindingsMap`, and the
  properties are lemmas about that function.
- **Glob patterns are a recursive predicate.** `Glob.GlobMatch` reads `*`
  as any run of characters other than line terminators, `/` included,
  because a regular-expression `.` does not match `\n`, `\r`, U+2028 or
  U+2029. Every other character is literal.
- **Each `analyze` call is split at its `await`.**
  - `Trigger` is the synchronous part.
  - `RunComplete` is the part after the container run.
  - `TimerFire` is the debounce timer's callback.

  `Valid()` states three invariants:
  - a timer is armed only while a run is in flight;
  - a run is in flight exactly while the flag is set;
  - the running root's old report has been deleted.

Where the behaviour as described and the code disagree, the model follows
the code:

- **No trailing re-run.** The end of a run clears the timer
  (`src/services/analyzer-service.ts:136-139`), so a trigger that arrives
  during a run never gets a coalesced re-run.
- **Every pattern matches a directory too.** In the current parser, a
  pattern without a trailing `/` excludes the path itself and everything
  below it (`src/core/parser.ts:106`).
- **Malformed lines are kept.** A line with fewer than two colons is not
  skipped: it is recorded with a NaN line number (`None`).

## Model

| member | source | states |
|---|---|---|
| `JsString.JoinSplit` | src/core/parser.ts:50-52 | joining the `split(":")` parts with `:` gives back the line |
| `JsString.SplitJoin` | src/core/parser.ts:50-53 | splitting a join of colon-free fields gives back the fields |
| `JsString.SplitLinesJoin` | src/core/parser.ts:41 | `split(/\r?\n/)` of lines joined with `\n` gives back the lines |
| `JsString.Filter` | src/core/parser.ts:41 | the result is no longer than the input; each of its elements passes and comes from the input; each passing input element is in it |
| `JsString.FilterSelects` | src/core/parser.ts:41 | the result is the input with the failing elements taken out: the passing positions, in increasing order and each once, so order and repetitions are kept |
| `JsString.FilterAppend` | src/core/parser.ts:41 | filtering a concatenation gives the two filtered pieces, one after the other |
| `JsString.Trim` | src/core/parser.ts:52 | `trim` leaves a contiguous middle piece with only white space around it, starting and ending with a visible character |
| `JsString.TrimIdempotent` | src/parser.ts:27 | a trimmed pattern is its own trim |
| `JsString.ParseIntDecimal` | src/core/parser.ts:69 | `parseInt` reads a decimal number back, whatever non-digit text follows it |
| `Glob.LiteralMatch` | src/core/parser.ts:102-104 | a pattern without `*` matches exactly itself, so `.` and `?` are literal |
| `Glob.StarMatch` | src/core/parser.ts:104 | `*` alone matches any line-terminator-free text, `/` included |
| `Glob.StarSuffixMatch` | src/parser.ts:93-97 | `*q` matches exactly the texts that end in `q` after a line-terminator-free prefix |
| `ReportFormat.DecomposeWellFormed` | src/core/parser.ts:50-56 | for a colon-free path and number: the path loses `./`, the line is the number minus 1, the message is the trimmed rest, and severity and code are its first two fields |
| `ReportFormat.DecomposeEncode` | src/core/parser.ts:50-56 | a well-formed checker line is read back as what it says: path without `./`, line `n - 1`, severity, code, message |
| `ReportFormat.DecomposeNoColon` | src/core/parser.ts:50-53 | a colon-free line gives a NaN line, an empty severity and message, and no code |
| `ReportFormat.DecomposeOneColon` | src/core/parser.ts:50-53 | a line with one colon gives its line number and an empty message without a code |
| `ReportFormat.MessageFields` | src/core/parser.ts:52-53 | the message `SEVERITY:CODE:text` is its own trim, and its first two fields are severity and code |
| `ReportFormat.FindingsForNonEmpty` | src/core/parser.ts:66 | a path has findings exactly when some kept line names it |
| `ReportFormat.FindingsMapKeys` | src/core/parser.ts:58-66 | every key comes from a kept line, so it is neither excluded nor inherited |
| `ReportFormat.KeptLineRecorded` | src/core/parser.ts:66-73 | the path of every kept line is a key of the result |
| `ReportFormat.FindingsForContains` | src/core/parser.ts:68-73 | the finding of every kept line is in its path's list |
| `ReportFormat.FindingsForAppend` | src/core/parser.ts:48-73 | the list for a path over two stretches of lines is the first stretch's list followed by the second's; this is report order |
| `ReportFormat.UnkeptLineIrrelevant` | src/core/parser.ts:58-64 | removing a skipped line anywhere in the report changes nothing |
| `ReportFormat.SingleEntry` | src/core/parser.ts:66-73 | one line gives a one-finding map if kept, an empty map if not |
| `ReportFormat.KeptCountBound` | src/core/parser.ts:48-77 | no more findings than lines |
| `ReportFormat.TotalFindingsUpdate` | src/core/parser.ts:68 | replacing one file's list changes the total by the difference in length |
| `ReportFormat.TotalFindingsZero` | src/services/analyzer-service.ts:114-117 | the total is 0 exactly when every file's list is empty |
| `ReportFormat.CollectFindings` | src/core/parser.ts:48-77 | the loop's result is `FindingsMap` of the decomposed lines, and its total is the number of kept lines |
| `ReportFormat.FindingsMapSnoc` | src/core/parser.ts:58-73 | one more kept line appends its finding to its path's list, creating the list when the path is new; a skipped line changes nothing |
| `ReportFormat.FindingsMapTotal` | src/core/parser.ts:48-77 | the findings of the result add up to exactly the number of kept lines |
| `CoreParser.Patterns` | src/core/parser.ts:27-33 | with the file, the patterns are exactly its non-empty, non-`#` lines of the `/\r?\n/` split, untrimmed, in file order and with repetitions; each is a line of the file; none without the file |
| `CoreParser.ReportLines` | src/core/parser.ts:40-41 | exactly the non-empty lines of the `/\r?\n/` split of the report, in report order and with repetitions |
| `CoreParser.CleanPattern` | src/core/parser.ts:101 | one trailing `/` is removed, and nothing else changes |
| `CoreParser.ParseReport` | src/core/parser.ts:12-80 | an absent report gives `{}`; otherwise the result is `Parsed`, and its total is the number of kept lines |
| `CoreParser.ParseReportOwnKeys` | src/core/parser.ts:48-77 | the same loop with a dictionary that inherits nothing |
| `CoreParser.ParsedKeysKept` | src/core/parser.ts:58-64 | no key is under `tests/`, matched by a pattern, or an inherited member name |
| `CoreParser.ParsedRecordsKeptLine` | src/core/parser.ts:66-73 | every other line's finding is recorded under its path |
| `CoreParser.OwnKeysRecordsKeptLine` | src/core/parser.ts:66-73 | with the corrected dictionary, every line that is neither a test file nor ignored is recorded |
| `CoreParser.LiteralPatternMatch` | src/core/parser.ts:106 | a `*`-free pattern `q` excludes `q` and every path below `q/`, and nothing else |
| `CoreParser.DirectoryPatternExamples` | src/core/parser.ts:100-107 | `build/` excludes `build/foo.c` and `build/sub/bar.h` but not `buildx/foo.c` |
| `CoreParser.UnderLiteralDirectory` | src/core/parser.ts:106 | a literal directory pattern excludes whatever lies below it |
| `CoreParser.StarPatternExamples` | src/core/parser.ts:102-106 | `*.log` excludes `a.log` and `dir/a.log` but not `a.log.txt` |
| `CoreParser.EndsInSuffix` | src/core/parser.ts:104-106 | `*q` excludes any line-terminator-free text followed by `q` |
| `CoreParser.ReportTextLines` | src/core/parser.ts:40-41 | a report of encoded lines, each followed by a newline, has exactly those lines |
| `CoreParser.ReportTextEntries` | src/core/parser.ts:40-56 | such a report decomposes into what its lines mean |
| `CoreParser.TestLineLeavesNoTrace` | src/core/parser.ts:48-73 | end to end: two lines for `p` around a test-file line give `p`'s two findings in report order and nothing else |
| `CoreParser.SkipMiddle` | src/core/parser.ts:58-73 | three lines, the middle one skipped, the outer two for one kept path: that path gets both findings in order |
| `CoreParser.OneLineReport` | src/core/parser.ts:48-73 | a one-line report gives its finding, or nothing when the path is inherited; the corrected parser always gives it |
| `CoreParser.ConstructorFindingLost` | src/core/parser.ts:66-76 | a finding for a file named `constructor` is lost as written, and kept by the corrected parser |
| `CoreParser.ColonFreeLine` | src/core/parser.ts:50-53 | a colon-free line is recorded under its own text with a NaN line, not skipped |
| `CoreParser.OnlyTestsWithoutGitignore` | src/core/parser.ts:28-64 | without a `.gitignore` there are no patterns, so a line is skipped exactly when its path is a test file |
| `CoreParser.OnlyOneColonReport` | src/core/parser.ts:50-73 | the one-line report `onlyonecolon`, which has no colon at all, gives exactly one finding with a NaN line under its own text |
| `CoreParser.SampleReport` | src/core/parser.ts:48-77 | the sample report gives `src/main.c` its two findings at zero-based lines 11 and 39, and drops `tests/unit.c` |
| `LegacyParser.Patterns` | src/parser.ts:22-29 | with the file, the patterns are exactly its trimmed `\n`-split lines that are non-empty and not `#` comments, in file order and with repetitions; none without the file |
| `LegacyParser.PatternsTrimmed` | src/parser.ts:26-28 | every pattern is trimmed, and every trimmed non-blank, non-comment line is a pattern |
| `LegacyParser.ReportLines` | src/parser.ts:32 | exactly the `\n`-split report lines that are not all white space, in report order and with repetitions |
| `LegacyParser.ParseReport` | src/parser.ts:7-82 | an absent report gives `{}`; otherwise the result is `LegacyParser.Parsed`, and its total is the number of kept lines |
| `LegacyParser.ParsedKeysKept` | src/parser.ts:44-56 | no key is a test file, ignored, or inherited |
| `LegacyParser.ParsedRecordsKeptLine` | src/parser.ts:58-67 | every other line's finding is recorded under its path |
| `LegacyParser.LiteralPatternExact` | src/parser.ts:92-97 | a `*`-free pattern excludes only the path equal to it |
| `LegacyParser.DirectoryPatternExamples` | src/parser.ts:97 | `build/` excludes `build/` but not `build/foo.c`, which the current parser does exclude |
| `LegacyParser.IgnoredByCurrentParser` | src/parser.ts:88-99 | whatever the earlier matcher ignores, the current one ignores too |
| `LegacyParser.BlankLineSkipped` | src/parser.ts:32 | a whitespace-only report gives `{}`, while the current parser records a finding for ` ` |
| `Diagnostics.SeverityLevelCases` | src/core/diagnostics.ts:10-22 | MAJOR and MINOR map to Warning, INFO to Information, anything else to Hint; never Error |
| `Diagnostics.Description` | src/core/diagnostics.ts:26-27 | a description is never empty |
| `Diagnostics.DescriptionCases` | src/core/diagnostics.ts:26-27 | a known code gets its table sentence; any other code, or none, gets "No description available" |
| `Diagnostics.TableHasNoEmptySentence` | src/utils/constants.ts:35-78 | no sentence in the table is empty, so the `\|\|` fallback never hides one |
| `Diagnostics.DiagnosticOfFinding` | src/core/diagnostics.ts:24-47 | the diagnostic covers the finding's line from column 0 to `Number.MAX_VALUE`, opens its message with `code - `, and has source `epitech-coding-style` and the finding's code |
| `Diagnostics.LineTooLongExample` | src/core/diagnostics.ts:24-47 | a MAJOR `C-F3` finding becomes the Warning `C-F3 - Line exceeds 80 columns` |
| `Diagnostics.CreateAll` | src/core/diagnostics.ts:55 | one diagnostic per finding, in order |
| `Diagnostics.CreateAllAppend` | src/core/diagnostics.ts:55 | the diagnostics of a joined list are the joined diagnostics |
| `Diagnostics.DiagnosticCollection.Update` | src/core/diagnostics.ts:49-57 | the URI shows exactly its findings' diagnostics, and every other URI is unchanged |
| `Diagnostics.DiagnosticCollection.Clear` | src/core/diagnostics.ts:59-62 | the collection is empty |
| `LegacyDiagnostics.SeverityRevisionsAgree` | src/diagnostics.ts:9-30 | the revisions agree on every severity except MAJOR, which is Error here and Warning in the current one |
| `LegacyDiagnostics.CreateDiagnostics` | src/diagnostics.ts:36-65 | one diagnostic per finding, in order |
| `LegacyDiagnostics.RevisionsDiffer` | src/diagnostics.ts:41-59 | against the current revision: same range and message, a level that differs exactly for MAJOR, and no source or code |
| `Analysis.DocumentValidity` | src/services/analyzer-service.ts:46-55 | a document is analysed exactly when it is not `md` and lies in a workspace folder |
| `Analysis.ResolveInjective` | src/services/analyzer-service.ts:120 | different relative paths are published under different URIs |
| `Analysis.CountFindings` | src/services/analyzer-service.ts:114-117 | the `reduce` gives the total number of findings over all files |
| `Analysis.Publish` | src/services/analyzer-service.ts:119-123 | each file gets exactly its findings' diagnostics under its resolved URI, and every other URI is unchanged |
| `Analysis.ProcessReport` | src/services/analyzer-service.ts:103-125 | the count is the total of what `Parser.parseReport` yields as written (`CoreParser.Parsed`), and each of its files is published under its resolved URI, other URIs unchanged |
| `AnalyzerService.AnalyzerService.Trigger` | src/services/analyzer-service.ts:76-100 | during a run, only the single timer is replaced, with no second run; an invalid document answers 0 and changes nothing; otherwise a run starts, all diagnostics are cleared, and the root's old report is deleted |
| `AnalyzerService.AnalyzerService.TimerFire` | src/services/analyzer-service.ts:85-88 | the timer's callback re-arms the timer and starts no run |
| `AnalyzerService.AnalyzerService.RunComplete` | src/services/analyzer-service.ts:102-139 | a failure answers 0 with a notice; a success stores the report, answers the total of the as-written parse (`CoreParser.Parsed`) and publishes each of its files; either way the flag is reset and the timer cleared |
| `AnalyzerService.AnalyzerService.ClearDebounceTimer` | src/services/analyzer-service.ts:63-68 | no timer is left armed |
| `AnalyzerService.AnalyzerService.constructor` | src/services/analyzer-service.ts:23-26 | idle, with no timer and no run |
| `CoreAnalyzer.Analyzer.Trigger` | src/core/analyzer.ts:72-96 | as in the service, except that a started run empties only the triggering document's diagnostics |
| `CoreAnalyzer.Analyzer.TimerFire` | src/core/analyzer.ts:80-83 | the timer's callback re-arms the timer and starts no run |
| `CoreAnalyzer.Analyzer.RunComplete` | src/core/analyzer.ts:98-132 | a failure answers 0; a success answers the total of the as-written parse (`CoreParser.Parsed`) and publishes each of its files; the flag is reset and the timer cleared |
| `CoreAnalyzer.Analyzer.ClearDebounceTimer` | src/core/analyzer.ts:59-64 | no timer is left armed |
| `Docker.ConcatAppend` | src/core/docker.ts:106-111 | stderr received in two stretches is the first stretch's text followed by the second's |
| `Docker.CollectStderr` | src/core/docker.ts:234-239 | `errorOutput` is all the stderr chunks joined, in arrival order |
| `Docker.FreshImageNotPulled` | src/core/docker.ts:75-81 | within 24 hours of the stored time, no pull is issued and nothing is stored |
| `Docker.MissingTimestampIsZero` | src/core/docker.ts:75 | without a stored time, the image is fresh exactly when `now` is under 86400000 |
| `Docker.TimestampOnlyOnSuccess` | src/core/docker.ts:118-135 | the stored time changes only on a pull that exits with 0, and then becomes `now`; any other end fails and leaves it |
| `Docker.NoSecondPullWithinADay` | src/core/docker.ts:78-127 | after a successful pull, every check in the next 24 hours uses the cached image |
| `Docker.PullFailureMessage` | src/core/docker.ts:119-124 | a failed pull's error carries the whole stderr text and the exit code |
| `Docker.PullDockerImage` | src/core/docker.ts:67-137 | the status and the stored values are those of `PullStatusOf` and `AfterPull` |
| `Docker.LastIndexOf` | src/core/docker.ts:199-200 | the index of the last `/`, or -1 when there is none |
| `Docker.ReportDirectory` | src/core/docker.ts:199-201 | the mounted report directory is `dirname` of the report path, `<workspace>/.vscode` |
| `Docker.ShellQuoteRoundTrip` | src/core/docker.ts:198-201 | the corrected quoting is read back by the shell as exactly the path, whatever it holds |
| `Docker.QuotePathOnPlainPath` | src/core/docker.ts:198-201 | on a path without `$`, backquote or backslash, the quoting as written is read back correctly |
| `Docker.UnreadableAfterPlain` | src/core/docker.ts:198 | ordinary characters in front of unreadable quoted text keep it unreadable |
| `Docker.DollarPathExpanded` | src/core/docker.ts:198 | a workspace at `/tmp/a$b` is not read literally as written, and is with the corrected quoting |
| `Docker.TrailingBackslashUnterminated` | src/core/docker.ts:198 | a path ending in `\` leaves the quote unclosed as written, and reads back with the corrected quoting |
| `Docker.RunArgsMounts` | src/core/docker.ts:203-214 | ten arguments: the workspace mounted at `/mnt/delivery`, the report directory at `/mnt/reports`, then the image and the two mount points |
| `Docker.RunArgsAgreeOnPlainPaths` | src/core/docker.ts:198-214 | the argument list as written equals the corrected one unless a path holds `$`, backquote or backslash |
| `Docker.CheckOutcomes` | src/core/docker.ts:145-263 | the check resolves exactly when a folder exists and the container exits with 0, and then with that folder's report path; with no folder it fails with "No workspace folder found"; a non-zero exit fails with the stderr text |
| `Docker.RunArgsAsWrittenMounts` | src/core/docker.ts:198-214 | for paths without `$`, backquote or backslash, the arguments as written mount both paths as they are |
| `Docker.ExecuteCheck` | src/core/docker.ts:145-263 | the result is `CheckResult`, whatever the pull did; the pull updates the store as `AfterPull` says; the arguments are the as-written `RunArgsAsWritten`, which escape only `"` |

## Left out

- File-system calls are not modelled: `existsSync`, `readFileSync`,
  `mkdirSync` and `unlinkSync`. File texts are parameters. The coordinator
  keeps the report files in a map field, and then `unlinkSync` deletes the
  root's entry.
- Processes are not modelled: spawning, output streaming,
  `docker image prune` and the pull's `stdout` logging. A process is
  represented only by how it ended (`ProcessOutcome`).
- Real timers and promises are not modelled. A trigger during a run answers
  `Deferred`: a promise that, as written, never settles, because the timer
  that would settle it keeps being replaced and is finally cleared.
- `Analysis.Resolve`: `path.resolve` is modelled as `root + "/" + path`
  without normalisation. So `./a.c` and `a.c` reach different URIs here,
  while `path.resolve` gives both the same file.
- `Docker.DirName`, `Docker.LogDirPath`, `Docker.ReportPath`: `path.join`
  and `path.dirname` are modelled as concatenation and "up to the last /".
  They do not normalise a trailing `/` of the workspace path.
- `Diagnostics.SeverityLevel`: does not model a lookup of an inherited name
  such as `constructor` in the `severityMap` record. In JavaScript that
  lookup finds a function rather than `undefined`, so the severity would
  not be `Hint`.
- `Diagnostics.Description`: does not model `ERROR_DESCRIPTIONS` lookups of
  inherited names. A code such as `toString` would get a function's source
  text as its description.
- `Diagnostics.CreateDiagnostic`: does not model VS Code's range check. A
  negative line, from a report line numbered `0`, makes `new vscode.Range`
  throw. That aborts `updateDiagnostics` and makes `analyze` answer 0,
  after some files may already have been published.
- `LegacyParser.ParseReport`: requires every pattern to be plain, with none
  of `\ ^ $ + ? ( ) [ ] { } |`. The earlier revision passes these to
  `new RegExp` unescaped, and an invalid expression throws into the line's
  `catch`. Regular-expression semantics are not modelled.
- `Docker.ShellWord`: models only how a POSIX shell reads a double-quoted
  word. Every `$` counts as the start of an expansion. With `shell: true` on
  Windows the command goes to `cmd.exe`, whose quoting rules are not
  modelled. Joining the arguments into one command line is not modelled
  either.
- Line numbers are unbounded integers. JavaScript numbers lose precision
  above 2^53.
- `Docker.PullDockerImage`: a process that emits `error` and then `close`
  is modelled by whichever event settles the promise first.
- `GlobalState` holds numbers only. A stored value of another type is not
  modelled.
- UI, activation, configuration, logging and disposal are outside the
  analysis pipeline and are not modelled:
  - `src/ui/status-bar.ts` and `src/core/indicator.ts`;
  - `src/extension.ts`;
  - the settings wrappers;
  - the debug loggers;
  - `src/utils/fileSearch.ts`;
  - `Diagnostics.dispose`;
  - singleton `getInstance`.
- `src/docker.ts` is the superseded revision, which only joins a command
  string. It is not part of this model.

## Findings

| source | as written | input that shows it | evidently intended | confidence | as-written member | corrected member |
|---|---|---|---|---|---|---|
| src/core/parser.ts:66-76 | `fileErrors` is a plain `{}`, so `fileErrors[p]` is truthy for a path that names an `Object.prototype` member; no list is created, `push` throws, and the `catch` drops the line (`src/parser.ts:58-70` does the same) | a report line `constructor:3:MAJOR:C-F3:` for a file named `constructor` at the workspace root | every line that is neither a test file nor ignored is recorded | not executed | `CoreParser.ConstructorFindingLost` | `CoreParser.OwnKeysRecordsKeptLine` |
| src/core/docker.ts:198-201 | only `"` is escaped in the double-quoted paths handed to a shell (`shell: true`); `$`, backquote and `\` keep their meaning inside double quotes | a workspace at `/tmp/a$b` (the shell expands `$b`), or a path ending in `\` (the closing quote is escaped) | the container mounts the workspace path as it is | not executed | `Docker.DollarPathExpanded` | `Docker.ShellQuoteRoundTrip` |

The operations follow the code as written:

- the coordinators parse with `CoreParser.ParseReport`, so a `constructor`
  line is lost there too;
- `Docker.ExecuteCheck` builds its arguments with `Docker.RunArgsAsWritten`.

The corrected definitions stand beside them, with the intended properties
proved: `CoreParser.ParsedOwnKeys` and `CoreParser.ParseReportOwnKeys` for
the parser, and `Docker.ShellQuote` and `Docker.RunArgs` for the quoting.
