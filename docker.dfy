/**
 * The checker's container (`Docker` in `src/core/docker.ts`): a stored
 * timestamp decides whether the image is pulled again, and the container's
 * exit decides whether the report path or an error comes back. The processes
 * themselves are outside the model: how each one ended, with the text it wrote
 * to its error stream, is given as a `ProcessOutcome`.
 */
module Docker {
  import opened Wrappers
  import Constants

  /**
   * How a spawned `docker` process ended: its `close` event with an exit code
   * (`None` when it was killed by a signal) and the chunks its error stream
   * delivered, or an `error` event that stopped it from running at all.
   */
  datatype ProcessOutcome = Closed(code: Option<int>, stderr: seq<string>) | SpawnFailed(message: string)

  /** `DockerError`: a message and, when the process exited, its code. */
  datatype DockerError = DockerError(message: string, exitCode: Option<int>)

  /** The error stream as one text, the chunks in the order they arrived. */
  function Concat(chunks: seq<string>): string {
    if chunks == [] then "" else Concat(chunks[..|chunks| - 1]) + chunks[|chunks| - 1]
  }

  /** Text received in two stretches is the text of the first followed by that of the second. */
  lemma {:induction false} ConcatAppend(a: seq<string>, b: seq<string>)
    ensures Concat(a + b) == Concat(a) + Concat(b)
    decreases |b|
  {
    if b == [] {
      assert a + b == a;
    } else {
      var b' := b[..|b| - 1];
      assert (a + b)[..|a + b| - 1] == a + b';
      ConcatAppend(a, b');
    }
  }

  /** `errorOutput += data.toString()` on each `data` event of the error stream. */
  method CollectStderr(chunks: seq<string>) returns (output: string)
    ensures output == Concat(chunks)
  {
    output := "";
    var i := 0;
    while i < |chunks|
      invariant 0 <= i <= |chunks|
      invariant output == Concat(chunks[..i])
    {
      assert chunks[..i + 1][..i] == chunks[..i];
      output := output + chunks[i];
      i := i + 1;
    }
    assert chunks[..i] == chunks;
  }

  // ---------------------------------------------------------------------------
  // Image freshness (pullDockerImage)
  // ---------------------------------------------------------------------------

  /** `context.globalState.get<number>(DOCKER_CACHE_KEY) ?? 0`. */
  function LastPull(values: map<string, int>): int {
    if Constants.DockerCacheKey in values then values[Constants.DockerCacheKey] else 0
  }

  /** The image counts as fresh: less than a day has passed since the last pull. */
  predicate Fresh(values: map<string, int>, now: int) {
    now - LastPull(values) < Constants.CacheDurationMs
  }

  /** What `pullDockerImage` did: nothing, a pull that succeeded, or a rejection. */
  datatype PullStatus = Cached | Pulled | PullFailed(error: DockerError)

  /** The outcome of `pullDockerImage` at time `now`, given how a pull would end. */
  function PullStatusOf(values: map<string, int>, now: int, pull: ProcessOutcome): PullStatus {
    if Fresh(values, now) then Cached
    else match pull
      case Closed(Some(0), _) => Pulled
      case Closed(code, chunks) => PullFailed(DockerError("Failed to pull image: " + Concat(chunks), code))
      case SpawnFailed(message) => PullFailed(DockerError("Failed to execute pull: " + message, None))
  }

  /** The stored values after `pullDockerImage`: the time taken before the pull, on success only. */
  function AfterPull(values: map<string, int>, now: int, pull: ProcessOutcome): map<string, int> {
    if PullStatusOf(values, now, pull) == Pulled then values[Constants.DockerCacheKey := now] else values
  }

  /** A fresh image is not pulled, whatever a pull would do, and nothing is stored. */
  lemma FreshImageNotPulled(values: map<string, int>, now: int, pull: ProcessOutcome)
    requires Fresh(values, now)
    ensures PullStatusOf(values, now, pull) == Cached && AfterPull(values, now, pull) == values
  {
  }

  /** Without a stored time, the image is pulled exactly when `now` is a day or more. */
  lemma MissingTimestampIsZero(values: map<string, int>, now: int)
    requires Constants.DockerCacheKey !in values
    ensures Fresh(values, now) <==> now < 86400000
  {
  }

  /**
   * The stored time changes only through a pull that exits with 0, and then
   * becomes `now`; any other exit, a signal or a spawn error leaves it and fails.
   */
  lemma TimestampOnlyOnSuccess(values: map<string, int>, now: int, pull: ProcessOutcome)
    ensures AfterPull(values, now, pull) != values ==>
      !Fresh(values, now) && pull.Closed? && pull.code == Some(0)
    ensures !Fresh(values, now) && pull.Closed? && pull.code == Some(0) ==>
      PullStatusOf(values, now, pull) == Pulled && LastPull(AfterPull(values, now, pull)) == now
    ensures !Fresh(values, now) && !(pull.Closed? && pull.code == Some(0)) ==>
      PullStatusOf(values, now, pull).PullFailed? && AfterPull(values, now, pull) == values
  {
  }

  /** After a pull that succeeds at `now`, every check in the next 24 hours uses the cached image. */
  lemma NoSecondPullWithinADay(values: map<string, int>, now: int, pull: ProcessOutcome, later: int, pull': ProcessOutcome)
    requires PullStatusOf(values, now, pull) == Pulled
    requires now <= later < now + Constants.CacheDurationMs
    ensures PullStatusOf(AfterPull(values, now, pull), later, pull') == Cached
  {
    assert LastPull(AfterPull(values, now, pull)) == now;
  }

  /** The failed pull's message carries the whole error stream, and its exit code. */
  lemma PullFailureMessage(values: map<string, int>, now: int, code: Option<int>, chunks: seq<string>)
    requires !Fresh(values, now) && code != Some(0)
    ensures var s := PullStatusOf(values, now, Closed(code, chunks));
      && s.PullFailed? && s.error.exitCode == code
      && s.error.message == "Failed to pull image: " + Concat(chunks)
  {
  }

  /** `context.globalState`, the extension's persisted key-value store. */
  class GlobalState {
    var values: map<string, int>

    constructor (initial: map<string, int>)
      ensures values == initial
    {
      values := initial;
    }
  }

  /** `pullDockerImage`: pull unless fresh, and store `now` when the pull exits with 0. */
  method PullDockerImage(state: GlobalState, now: int, pull: ProcessOutcome) returns (status: PullStatus)
    modifies state
    ensures status == PullStatusOf(old(state.values), now, pull)
    ensures state.values == AfterPull(old(state.values), now, pull)
  {
    var lastPull := LastPull(state.values);
    if now - lastPull < Constants.CacheDurationMs {
      return Cached;
    }
    match pull
    case SpawnFailed(message) =>
      status := PullFailed(DockerError("Failed to execute pull: " + message, None));
    case Closed(code, chunks) =>
      var errorOutput := CollectStderr(chunks);
      if code != Some(0) {
        status := PullFailed(DockerError("Failed to pull image: " + errorOutput, code));
      } else {
        state.values := state.values[Constants.DockerCacheKey := now];
        status := Pulled;
      }
  }

  // ---------------------------------------------------------------------------
  // Paths and quoting (executeCheck)
  // ---------------------------------------------------------------------------

  /** The index of the last `c` in `s`, or -1. */
  function LastIndexOf(s: string, c: char): (i: int)
    ensures -1 <= i < |s|
    ensures i >= 0 ==> s[i] == c && forall j :: i < j < |s| ==> s[j] != c
    ensures i == -1 ==> c !in s
  {
    if s == [] then -1
    else if s[|s| - 1] == c then |s| - 1
    else LastIndexOf(s[..|s| - 1], c)
  }

  /** `path.dirname` of a path that does not end in `/`. */
  function DirName(p: string): string {
    var i := LastIndexOf(p, '/');
    if i < 0 then "." else if i == 0 then "/" else p[..i]
  }

  /** `path.join(workspacePath, LOG_DIR)`, the report's directory. */
  function LogDirPath(workspace: string): string {
    workspace + "/" + Constants.LogDir
  }

  /** `getLogPath(workspacePath)`, the report file. */
  function ReportPath(workspace: string): string {
    LogDirPath(workspace) + "/" + Constants.ExportFile
  }

  /** The directory mounted for the report is the log directory. */
  lemma ReportDirectory(workspace: string)
    ensures DirName(ReportPath(workspace)) == LogDirPath(workspace)
  {
    var d := LogDirPath(workspace);
    var p := ReportPath(workspace);
    assert p[|d|] == '/';
    assert forall j :: |d| < j < |p| ==> p[j] == Constants.ExportFile[j - |d| - 1];
    assert '/' !in Constants.ExportFile;
    assert p[..|d|] == d;
  }

  /** `.replace(/"/g, '\\"')`: every double quote gets a backslash before it. */
  function EscapeQuotes(p: string): string {
    if p == [] then "" else (if p[0] == '"' then "\\\"" else [p[0]]) + EscapeQuotes(p[1..])
  }

  /** The path quoting of `executeCheck`, as written. */
  function QuotePath(p: string): string {
    "\"" + EscapeQuotes(p) + "\""
  }

  /** A character that keeps a special meaning inside double quotes for a POSIX shell. */
  predicate SpecialInDoubleQuotes(c: char) {
    c == '$' || c == '`' || c == '"' || c == '\\'
  }

  /** Every character special inside double quotes gets a backslash before it. */
  function EscapeShell(p: string): string {
    if p == [] then "" else (if SpecialInDoubleQuotes(p[0]) then ['\\', p[0]] else [p[0]]) + EscapeShell(p[1..])
  }

  /** The quoting the shell needs: a double-quoted word that reads back as `p`. */
  function ShellQuote(p: string): string {
    "\"" + EscapeShell(p) + "\""
  }

  function Prepend(c: char, r: Option<(string, string)>): Option<(string, string)> {
    match r
    case None => None
    case Some((v, rest)) => Some(([c] + v, rest))
  }

  /**
   * How a POSIX shell reads the inside of a double-quoted word: the literal
   * value up to the closing quote and what follows it, or `None` when the text
   * is not taken literally (`$` and backquote start an expansion) or the quote
   * is never closed. A backslash escapes `$`, backquote, `"`, `\` and newline
   * (an escaped newline disappears) and is kept before any other character.
   */
  function ReadQuoted(s: string): Option<(string, string)>
    decreases |s|
  {
    if s == [] then None
    else if s[0] == '"' then Some(("", s[1..]))
    else if s[0] == '$' || s[0] == '`' then None
    else if s[0] == '\\' && |s| >= 2 && (SpecialInDoubleQuotes(s[1]) || s[1] == '\n') then
      if s[1] == '\n' then ReadQuoted(s[2..]) else Prepend(s[1], ReadQuoted(s[2..]))
    else Prepend(s[0], ReadQuoted(s[1..]))
  }

  /** A shell word that opens with a double quote, read up to its closing quote. */
  function ShellWord(w: string): Option<(string, string)> {
    if w != [] && w[0] == '"' then ReadQuoted(w[1..]) else None
  }

  lemma {:induction false} EscapeShellReadsBack(p: string, rest: string)
    ensures ReadQuoted(EscapeShell(p) + "\"" + rest) == Some((p, rest))
    decreases |p|
  {
    var s := EscapeShell(p) + "\"" + rest;
    if p == [] {
      assert s == "\"" + rest;
    } else {
      var t := EscapeShell(p[1..]) + "\"" + rest;
      EscapeShellReadsBack(p[1..], rest);
      if SpecialInDoubleQuotes(p[0]) {
        assert s == ['\\', p[0]] + t;
        assert s[2..] == t;
      } else {
        assert s == [p[0]] + t;
        assert s[1..] == t;
      }
      assert [p[0]] + p[1..] == p;
    }
  }

  /** The shell reads a quoted path back as the path, whatever it holds, and leaves what follows. */
  lemma ShellQuoteRoundTrip(p: string, rest: string)
    ensures ShellWord(ShellQuote(p) + rest) == Some((p, rest))
  {
    var w := ShellQuote(p) + rest;
    assert w[1..] == EscapeShell(p) + "\"" + rest;
    EscapeShellReadsBack(p, rest);
  }

  /** A path free of `$`, backquote and backslash. */
  predicate ShellPlain(p: string) {
    forall i :: 0 <= i < |p| ==> p[i] != '$' && p[i] != '`' && p[i] != '\\'
  }

  lemma {:induction false} EscapesAgreeOnPlain(p: string)
    requires ShellPlain(p)
    ensures EscapeQuotes(p) == EscapeShell(p)
    decreases |p|
  {
    if p != [] {
      assert ShellPlain(p[1..]) by {
        forall i | 0 <= i < |p[1..]| ensures p[1..][i] != '$' && p[1..][i] != '`' && p[1..][i] != '\\' {
          assert p[1..][i] == p[i + 1];
        }
      }
      EscapesAgreeOnPlain(p[1..]);
      assert 0 < |p|;
    }
  }

  /** On a path free of `$`, backquote and backslash, the quoting as written is the correct one. */
  lemma QuotePathOnPlainPath(p: string, rest: string)
    requires ShellPlain(p)
    ensures QuotePath(p) == ShellQuote(p)
    ensures ShellWord(QuotePath(p) + rest) == Some((p, rest))
  {
    EscapesAgreeOnPlain(p);
    ShellQuoteRoundTrip(p, rest);
  }

  /** Text without special characters in front of an unreadable rest leaves the whole unreadable. */
  lemma {:induction false} UnreadableAfterPlain(pre: string, s: string)
    requires forall i :: 0 <= i < |pre| ==> !SpecialInDoubleQuotes(pre[i])
    requires ReadQuoted(s) == None
    ensures ReadQuoted(pre + s) == None
    decreases |pre|
  {
    if pre != [] {
      assert (pre + s)[0] == pre[0] && (pre + s)[1..] == pre[1..] + s;
      assert !SpecialInDoubleQuotes(pre[0]);
      UnreadableAfterPlain(pre[1..], s);
    } else {
      assert pre + s == s;
    }
  }

  /**
   * A workspace at `/tmp/a$b`: the shell expands `$b` in the quoted path as
   * written, while the corrected quoting passes the path through.
   */
  lemma DollarPathExpanded()
    ensures ShellWord(QuotePath("/tmp/a$b")) == None
    ensures ShellWord(ShellQuote("/tmp/a$b")) == Some(("/tmp/a$b", ""))
  {
    DollarPathAsWritten();
    DollarPathQuoted();
  }

  /** Double quotes leave `$b` to the shell, so the word cannot be read as written. */
  lemma DollarPathAsWritten()
    ensures ShellWord(QuotePath("/tmp/a$b")) == None
  {
    QuotedPlain("/tmp/a$b");
    DollarPathUnreadable();
  }

  /** A path without `"` is read, as written, from its text up to the closing quote. */
  lemma QuotedPlain(p: string)
    requires '"' !in p
    ensures ShellWord(QuotePath(p)) == ReadQuoted(p + "\"")
  {
    EscapeQuotesNoQuote(p);
    assert QuotePath(p)[1..] == p + "\"";
  }

  /** The text after the opening quote: `$` stops the reading. */
  lemma DollarPathUnreadable()
    ensures ReadQuoted("/tmp/a$b" + "\"") == None
  {
    assert "/tmp/a$b" + "\"" == "/tmp/a" + "$b\"";
    assert ReadQuoted("$b\"") == None;
    UnreadableAfterPlain("/tmp/a", "$b\"");
  }

  /** A path without `"` is quoted as it stands. */
  lemma {:induction false} EscapeQuotesNoQuote(p: string)
    requires '"' !in p
    ensures EscapeQuotes(p) == p
    decreases |p|
  {
    if p != [] {
      assert p[0] in p;
      assert '"' !in p[1..] by { assert forall c :: c in p[1..] ==> c in p; }
      EscapeQuotesNoQuote(p[1..]);
      assert p == [p[0]] + p[1..];
    }
  }

  /** With `$` escaped inside the double quotes, `$b` reaches the reader as it stands. */
  lemma DollarPathQuoted()
    ensures ShellWord(ShellQuote("/tmp/a$b")) == Some(("/tmp/a$b", ""))
  {
    ShellQuoteRoundTrip("/tmp/a$b", "");
    assert ShellQuote("/tmp/a$b") + "" == ShellQuote("/tmp/a$b");
  }

  /** A workspace path ending in a backslash: as written, its closing quote is escaped and never closes. */
  lemma TrailingBackslashUnterminated()
    ensures ShellWord(QuotePath("a\\")) == None
    ensures ShellWord(ShellQuote("a\\")) == Some(("a\\", ""))
  {
    assert EscapeQuotes("a\\") == "a\\";
    assert QuotePath("a\\")[1..] == "a" + "\\\"";
    assert ReadQuoted("") == None;
    assert ReadQuoted("\\\"") == None;
    UnreadableAfterPlain("a", "\\\"");
    ShellQuoteRoundTrip("a\\", "");
    assert ShellQuote("a\\") + "" == ShellQuote("a\\");
  }

  /** The `docker run` arguments of `executeCheck`, with the given quoting of the two mounted paths. */
  function RunArgsWith(quote: string -> string, workspace: string, reportDir: string): seq<string> {
    ["run", "--rm", "-i",
     "-v", quote(workspace) + ":" + Constants.DeliveryMountDir,
     "-v", quote(reportDir) + ":" + Constants.ReportMountDir,
     Constants.DockerImage, Constants.DeliveryMountDir, Constants.ReportMountDir]
  }

  /** The arguments as written, quoting with `QuotePath`. */
  function RunArgsAsWritten(workspace: string, reportDir: string): seq<string> {
    RunArgsWith(QuotePath, workspace, reportDir)
  }

  /** The arguments with the corrected quoting. */
  function RunArgs(workspace: string, reportDir: string): seq<string> {
    RunArgsWith(ShellQuote, workspace, reportDir)
  }

  /**
   * The shell sees ten arguments: the workspace mounted at `/mnt/delivery`, the
   * report directory at `/mnt/reports`, then the image and the two mount points.
   */
  lemma RunArgsMounts(workspace: string, reportDir: string)
    ensures var args := RunArgs(workspace, reportDir);
      && |args| == 10
      && args[..4] == ["run", "--rm", "-i", "-v"] && args[5] == "-v"
      && ShellWord(args[4]) == Some((workspace, ":/mnt/delivery"))
      && ShellWord(args[6]) == Some((reportDir, ":/mnt/reports"))
      && args[7..] == ["ghcr.io/epitech/coding-style-checker:latest", "/mnt/delivery", "/mnt/reports"]
  {
    var args := RunArgs(workspace, reportDir);
    ShellQuoteRoundTrip(workspace, ":/mnt/delivery");
    ShellQuoteRoundTrip(reportDir, ":/mnt/reports");
    assert args[4] == ShellQuote(workspace) + ":/mnt/delivery";
    assert args[6] == ShellQuote(reportDir) + ":/mnt/reports";
  }

  /** The arguments as written are the corrected ones when neither path holds `$`, backquote or backslash. */
  lemma RunArgsAgreeOnPlainPaths(workspace: string, reportDir: string)
    requires ShellPlain(workspace) && ShellPlain(reportDir)
    ensures RunArgsAsWritten(workspace, reportDir) == RunArgs(workspace, reportDir)
  {
    QuotePathOnPlainPath(workspace, "");
    QuotePathOnPlainPath(reportDir, "");
  }

  /** The arguments as written mount both paths as they are when neither holds `$`, backquote or backslash. */
  lemma RunArgsAsWrittenMounts(workspace: string, reportDir: string)
    requires ShellPlain(workspace) && ShellPlain(reportDir)
    ensures var args := RunArgsAsWritten(workspace, reportDir);
      && |args| == 10
      && ShellWord(args[4]) == Some((workspace, ":/mnt/delivery"))
      && ShellWord(args[6]) == Some((reportDir, ":/mnt/reports"))
  {
    RunArgsAgreeOnPlainPaths(workspace, reportDir);
    RunArgsMounts(workspace, reportDir);
  }

  // ---------------------------------------------------------------------------
  // executeCheck
  // ---------------------------------------------------------------------------

  /** Why `executeCheck` rejects. */
  datatype CheckError = NoWorkspace | Container(error: DockerError)

  /** The `message` of the rejection. */
  function ErrorMessage(e: CheckError): string {
    match e
    case NoWorkspace => "No workspace folder found"
    case Container(error) => error.message
  }

  /** `workspaceFolder ?? vscode.workspace.workspaceFolders?.[0]`. */
  function ActiveFolder(workspaceFolder: Option<string>, workspaceFolders: seq<string>): Option<string> {
    if workspaceFolder.Some? then workspaceFolder
    else if workspaceFolders != [] then Some(workspaceFolders[0])
    else None
  }

  /** What `executeCheck` resolves or rejects with, given how the container ended. */
  function CheckResult(workspaceFolder: Option<string>, workspaceFolders: seq<string>, run: ProcessOutcome): Result<string, CheckError> {
    match ActiveFolder(workspaceFolder, workspaceFolders)
    case None => Failure(NoWorkspace)
    case Some(workspace) =>
      match run
      case Closed(Some(0), _) => Success(ReportPath(workspace))
      case Closed(code, chunks) => Failure(Container(DockerError("Container execution failed: " + Concat(chunks), code)))
      case SpawnFailed(message) => Failure(Container(DockerError("Container execution error: " + message, None)))
  }

  /**
   * The check resolves exactly when there is a folder and the container exits
   * with 0, and then with that folder's report path; a non-zero exit or a
   * signal rejects with the container's error stream, and with the folder
   * passed in taking precedence over the first open folder.
   */
  lemma CheckOutcomes(workspaceFolder: Option<string>, workspaceFolders: seq<string>, run: ProcessOutcome)
    ensures CheckResult(workspaceFolder, workspaceFolders, run).Success? <==>
      ActiveFolder(workspaceFolder, workspaceFolders).Some? && run.Closed? && run.code == Some(0)
    ensures CheckResult(workspaceFolder, workspaceFolders, run).Success? ==>
      CheckResult(workspaceFolder, workspaceFolders, run).value == ReportPath(ActiveFolder(workspaceFolder, workspaceFolders).value)
    ensures workspaceFolder.None? && workspaceFolders == [] ==>
      CheckResult(workspaceFolder, workspaceFolders, run) == Failure(NoWorkspace)
    ensures workspaceFolder.Some? ==> ActiveFolder(workspaceFolder, workspaceFolders) == workspaceFolder
    ensures ActiveFolder(workspaceFolder, workspaceFolders).Some? && run.Closed? && run.code != Some(0) ==>
      CheckResult(workspaceFolder, workspaceFolders, run) ==
        Failure(Container(DockerError("Container execution failed: " + Concat(run.stderr), run.code)))
  {
  }

  /**
   * `executeCheck`: choose the folder, pull the image if it is stale (a failed
   * pull is only logged), then run the container. Also returns the arguments
   * it runs `docker` with, and what the pull did.
   */
  method ExecuteCheck(state: GlobalState, workspaceFolder: Option<string>, workspaceFolders: seq<string>,
                      now: int, pull: ProcessOutcome, run: ProcessOutcome)
    returns (r: Result<string, CheckError>, args: seq<string>, pulled: Option<PullStatus>)
    modifies state
    ensures r == CheckResult(workspaceFolder, workspaceFolders, run)
    ensures ActiveFolder(workspaceFolder, workspaceFolders).None? ==>
      state.values == old(state.values) && args == [] && pulled.None?
    ensures ActiveFolder(workspaceFolder, workspaceFolders).Some? ==>
      var workspace := ActiveFolder(workspaceFolder, workspaceFolders).value;
      && pulled == Some(PullStatusOf(old(state.values), now, pull))
      && state.values == AfterPull(old(state.values), now, pull)
      && args == RunArgsAsWritten(workspace, LogDirPath(workspace))
  {
    var active := ActiveFolder(workspaceFolder, workspaceFolders);
    if active.None? {
      return Failure(NoWorkspace), [], None;
    }
    var workspacePath := active.value;
    var reportPath := ReportPath(workspacePath);
    var status := PullDockerImage(state, now, pull);
    pulled := Some(status);
    ReportDirectory(workspacePath);
    args := RunArgsAsWritten(workspacePath, DirName(reportPath));
    match run
    case SpawnFailed(message) =>
      r := Failure(Container(DockerError("Container execution error: " + message, None)));
    case Closed(code, chunks) =>
      var errorOutput := CollectStderr(chunks);
      if code != Some(0) {
        r := Failure(Container(DockerError("Container execution failed: " + errorOutput, code)));
      } else {
        r := Success(reportPath);
      }
  }
}
