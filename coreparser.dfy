/**
 * The current parser (`Parser.parseReport` in `src/core/parser.ts`): the report
 * and the `.gitignore` file are split with `/\r?\n/`, patterns are kept as they
 * stand, and a pattern excludes the path it matches and everything below it.
 * The text of each file is a parameter; `None` is a file that does not exist.
 */
module CoreParser {
  import opened Wrappers
  import opened JsString
  import opened Glob
  import opened ReportFormat

  /** A `.gitignore` line that is used as a pattern: not empty and not a comment. */
  predicate IsPattern(line: string) {
    line != "" && !StartsWith(line, "#")
  }

  /** The patterns of the `.gitignore` file, untrimmed, in file order; none without the file. */
  function Patterns(gitignore: Option<string>): (ps: seq<string>)
    ensures gitignore.None? ==> ps == []
    ensures forall i :: 0 <= i < |ps| ==> IsPattern(ps[i])
    ensures gitignore.Some? ==> forall i :: 0 <= i < |ps| ==> ps[i] in SplitLinesCrLf(gitignore.value)
    ensures gitignore.Some? ==> forall i ::
      (0 <= i < |SplitLinesCrLf(gitignore.value)| && IsPattern(SplitLinesCrLf(gitignore.value)[i]))
        ==> SplitLinesCrLf(gitignore.value)[i] in ps
    ensures gitignore.Some? ==> exists ix :: Selects(ix, SplitLinesCrLf(gitignore.value), ps, IsPattern)
  {
    match gitignore
    case None => []
    case Some(text) =>
      FilterSelects(SplitLinesCrLf(text), IsPattern);
      Filter(SplitLinesCrLf(text), IsPattern)
  }

  /** A line of the report that `filter(Boolean)` keeps. */
  predicate IsReportLine(line: string) {
    line != ""
  }

  /**
   * The report's non-empty lines (`filter(Boolean)`): every non-empty line of
   * the split, in report order, each as often as it occurs.
   */
  function ReportLines(text: string): (lines: seq<string>)
    ensures forall i :: 0 <= i < |lines| ==> lines[i] != "" && lines[i] in SplitLinesCrLf(text)
    ensures forall i ::
      (0 <= i < |SplitLinesCrLf(text)| && SplitLinesCrLf(text)[i] != "")
        ==> SplitLinesCrLf(text)[i] in lines
    ensures exists ix :: Selects(ix, SplitLinesCrLf(text), lines, IsReportLine)
  {
    FilterSelects(SplitLinesCrLf(text), IsReportLine);
    Filter(SplitLinesCrLf(text), IsReportLine)
  }

  /** `isTestFile`: the path lies under a directory named `tests`. */
  predicate IsTestFile(path: string) {
    StartsWith(path, "tests/") || Contains(path, "/tests/")
  }

  /** A path without `/` lies in no directory, so it is no test file. */
  lemma NoSlashNoTest(path: string)
    requires '/' !in path
    ensures !IsTestFile(path)
  {
    if |path| >= 6 {
      assert path[5] in path;
    }
    forall i | 0 <= i <= |path| - 7 ensures !OccursAt(path, "/tests/", i) {
      assert path[i] in path;
    }
  }

  /** `pattern.replace(/\/$/, "")`: one trailing `/` is removed. */
  function CleanPattern(pattern: string): (c: string)
    ensures EndsWith(pattern, "/") ==> c + "/" == pattern
    ensures !EndsWith(pattern, "/") ==> c == pattern
  {
    if EndsWith(pattern, "/") then pattern[..|pattern| - 1] else pattern
  }

  /**
   * `^<compiled pattern>(?:/.*)?$`: the path matches the pattern, or the part
   * before one of its `/` does and the part after it has no line terminator.
   */
  predicate MatchesDirOrSelf(cleaned: string, path: string) {
    || GlobMatch(cleaned, path)
    || exists i :: 0 <= i < |path| && path[i] == '/' && GlobMatch(cleaned, path[..i]) && NoLineTerminator(path[i + 1..])
  }

  /** `isFileIgnored`: some pattern matches (`some`). */
  predicate IsFileIgnored(path: string, patterns: seq<string>) {
    exists i :: 0 <= i < |patterns| && MatchesDirOrSelf(CleanPattern(patterns[i]), path)
  }

  /** The two `continue`s of the loop: a test file, then an ignored file. */
  function Excluded(patterns: seq<string>): string -> bool {
    (path: string) => IsTestFile(path) || IsFileIgnored(path, patterns)
  }

  /**
   * What `parseReport` returns. A path that names a member of `Object.prototype`
   * is never recorded (see `InheritedKeys`).
   */
  function Parsed(report: Option<string>, gitignore: Option<string>): FileFindings {
    match report
    case None => map[]
    case Some(text) => FindingsMap(Entries(ReportLines(text), DecomposeLine), Excluded(Patterns(gitignore)), InheritedKeys)
  }

  /** `Parser.parseReport`: without a report the result is empty; otherwise the loop fills it. */
  method ParseReport(report: Option<string>, gitignore: Option<string>) returns (r: FileFindings)
    ensures report.None? ==> r == map[]
    ensures r == Parsed(report, gitignore)
    ensures report.Some? ==>
      TotalFindings(r) == KeptCount(Entries(ReportLines(report.value), DecomposeLine), Excluded(Patterns(gitignore)), InheritedKeys)
  {
    if report.None? {
      return map[];
    }
    var patterns := Patterns(gitignore);
    var lines := ReportLines(report.value);
    r := CollectFindings(lines, DecomposeLine, Excluded(patterns), InheritedKeys);
  }

  /**
   * The same loop on a dictionary that inherits nothing (`Object.create(null)`):
   * every line that is neither a test file nor ignored is recorded.
   */
  function ParsedOwnKeys(report: Option<string>, gitignore: Option<string>): FileFindings {
    match report
    case None => map[]
    case Some(text) => FindingsMap(Entries(ReportLines(text), DecomposeLine), Excluded(Patterns(gitignore)), {})
  }

  method ParseReportOwnKeys(report: Option<string>, gitignore: Option<string>) returns (r: FileFindings)
    ensures report.None? ==> r == map[]
    ensures r == ParsedOwnKeys(report, gitignore)
    ensures report.Some? ==>
      TotalFindings(r) == KeptCount(Entries(ReportLines(report.value), DecomposeLine), Excluded(Patterns(gitignore)), {})
  {
    if report.None? {
      return map[];
    }
    var patterns := Patterns(gitignore);
    var lines := ReportLines(report.value);
    r := CollectFindings(lines, DecomposeLine, Excluded(patterns), {});
  }

  /** No key of the result is a test file, an ignored file, or an inherited member name. */
  lemma ParsedKeysKept(report: Option<string>, gitignore: Option<string>, k: string)
    requires k in Parsed(report, gitignore)
    ensures !IsTestFile(k) && !IsFileIgnored(k, Patterns(gitignore)) && k !in InheritedKeys
  {
    var text := report.value;
    FindingsMapKeys(Entries(ReportLines(text), DecomposeLine), Excluded(Patterns(gitignore)), InheritedKeys, k);
  }

  /**
   * Every report line whose path is neither a test file nor ignored nor inherited
   * has its finding recorded under that path.
   */
  lemma ParsedRecordsKeptLine(text: string, gitignore: Option<string>, j: int)
    requires 0 <= j < |ReportLines(text)|
    requires var e := DecomposeLine(ReportLines(text)[j]);
      !IsTestFile(e.path) && !IsFileIgnored(e.path, Patterns(gitignore)) && e.path !in InheritedKeys
    ensures var e := DecomposeLine(ReportLines(text)[j]);
      e.path in Parsed(Some(text), gitignore) && e.finding in Parsed(Some(text), gitignore)[e.path]
  {
    var entries := Entries(ReportLines(text), DecomposeLine);
    var ex := Excluded(Patterns(gitignore));
    assert Kept(entries[j], ex, InheritedKeys);
    KeptLineRecorded(entries, ex, InheritedKeys, j);
    FindingsForContains(entries, ex, InheritedKeys, j);
  }

  /** With the corrected dictionary, the only lines left out are test files and ignored files. */
  lemma OwnKeysRecordsKeptLine(text: string, gitignore: Option<string>, j: int)
    requires 0 <= j < |ReportLines(text)|
    requires var e := DecomposeLine(ReportLines(text)[j]);
      !IsTestFile(e.path) && !IsFileIgnored(e.path, Patterns(gitignore))
    ensures var e := DecomposeLine(ReportLines(text)[j]);
      e.path in ParsedOwnKeys(Some(text), gitignore) && e.finding in ParsedOwnKeys(Some(text), gitignore)[e.path]
  {
    var entries := Entries(ReportLines(text), DecomposeLine);
    var ex := Excluded(Patterns(gitignore));
    assert Kept(entries[j], ex, {});
    KeptLineRecorded(entries, ex, {}, j);
    FindingsForContains(entries, ex, {}, j);
  }

  /** A pattern without `*` or a trailing `/`, `q`, excludes `q` and every path below `q/`. */
  lemma {:induction false} LiteralPatternMatch(q: string, path: string)
    requires '*' !in q
    ensures MatchesDirOrSelf(q, path)
      <==> path == q || (StartsWith(path, q + "/") && NoLineTerminator(path[|q| + 1..]))
  {
    LiteralMatch(q, path);
    if StartsWith(path, q + "/") && NoLineTerminator(path[|q| + 1..]) {
      assert path[..|q|] == q;
      LiteralMatch(q, path[..|q|]);
    }
    if exists i :: 0 <= i < |path| && path[i] == '/' && GlobMatch(q, path[..i]) && NoLineTerminator(path[i + 1..]) {
      var i :| 0 <= i < |path| && path[i] == '/' && GlobMatch(q, path[..i]) && NoLineTerminator(path[i + 1..]);
      LiteralMatch(q, path[..i]);
      assert path[..|q| + 1] == q + "/";
    }
  }

  /** The pattern `build/` excludes `build/foo.c` and `build/sub/bar.h` but not `buildx/foo.c`. */
  lemma DirectoryPatternExamples()
    ensures IsFileIgnored("build/foo.c", ["build/"])
    ensures IsFileIgnored("build/sub/bar.h", ["build/"])
    ensures !IsFileIgnored("buildx/foo.c", ["build/"])
  {
    BelowBuild("foo.c");
    BelowBuild("sub/bar.h");
    assert "build" + "/" + "foo.c" == "build/foo.c";
    assert "build" + "/" + "sub/bar.h" == "build/sub/bar.h";
    BuildxNotBelowBuild();
  }

  /** `build/` excludes whatever lies below `build`. */
  lemma BelowBuild(rest: string)
    requires NoLineTerminator(rest)
    ensures IsFileIgnored("build" + "/" + rest, ["build/"])
  {
    assert CleanPattern(["build/"][0]) == "build";
    UnderLiteralDirectory("build", rest);
  }

  /** `buildx/foo.c` is neither `build` nor below it. */
  lemma BuildxNotBelowBuild()
    ensures !IsFileIgnored("buildx/foo.c", ["build/"])
  {
    assert CleanPattern(["build/"][0]) == "build";
    LiteralPatternMatch("build", "buildx/foo.c");
    assert "buildx/foo.c"[..6] != "build/" by { assert "buildx/foo.c"[..6][5] == 'x'; }
  }

  /** A literal directory pattern excludes whatever lies below it. */
  lemma UnderLiteralDirectory(q: string, rest: string)
    requires '*' !in q && NoLineTerminator(rest)
    ensures MatchesDirOrSelf(q, q + "/" + rest)
  {
    var path := q + "/" + rest;
    assert path[..|q| + 1] == q + "/";
    assert path[|q| + 1..] == rest;
    LiteralPatternMatch(q, path);
  }

  /** The pattern `*.log` excludes `a.log` and `dir/a.log` (its `*` crosses `/`), but not `a.log.txt`. */
  lemma StarPatternExamples()
    ensures IsFileIgnored("a.log", ["*.log"])
    ensures IsFileIgnored("dir/a.log", ["*.log"])
    ensures !IsFileIgnored("a.log.txt", ["*.log"])
  {
    LogSuffix("a");
    LogSuffix("dir/a");
    assert "a" + ".log" == "a.log";
    assert "dir/a" + ".log" == "dir/a.log";
    LogInsideNotIgnored();
  }

  /** `*.log` excludes any line-terminator-free name followed by `.log`. */
  lemma LogSuffix(front: string)
    requires NoLineTerminator(front)
    ensures IsFileIgnored(front + ".log", ["*.log"])
  {
    assert CleanPattern(["*.log"][0]) == ['*'] + ".log";
    EndsInSuffix(front, ".log");
  }

  /** `a.log.txt` ends in `.txt`, and has no `/` to end a directory at. */
  lemma LogInsideNotIgnored()
    ensures !IsFileIgnored("a.log.txt", ["*.log"])
  {
    assert CleanPattern(["*.log"][0]) == ['*'] + ".log";
    LogInsideNoMatch();
    NoSlashSelfOnly(['*'] + ".log", "a.log.txt");
  }

  /** `*.log` does not match `a.log.txt`, whose last character is not `g`. */
  lemma LogInsideNoMatch()
    ensures !GlobMatch(['*'] + ".log", "a.log.txt")
  {
    var path := "a.log.txt";
    StarSuffixMatch(".log", path);
    assert path[|path| - 4..][3] == 't';
  }

  /** A path without `/` has no directory to match, so only the path itself can. */
  lemma NoSlashSelfOnly(cleaned: string, path: string)
    requires '/' !in path
    ensures MatchesDirOrSelf(cleaned, path) <==> GlobMatch(cleaned, path)
  {
  }

  /** `*` followed by a literal suffix matches any line-terminator-free text followed by the suffix. */
  lemma EndsInSuffix(front: string, q: string)
    requires '*' !in q && NoLineTerminator(front)
    ensures MatchesDirOrSelf(['*'] + q, front + q)
  {
    var s := front + q;
    assert s[..|s| - |q|] == front;
    assert s[|s| - |q|..] == q;
    StarSuffixMatch(q, s);
  }

  /** The report made of the encoded lines, each followed by a newline. */
  function ReportText(lines: seq<LineFields>): string {
    Join(seq(|lines|, i requires 0 <= i < |lines| => Encode(lines[i])) + [""], '\n')
  }

  /** Its non-empty lines are the encoded lines, in order. */
  lemma ReportTextLines(lines: seq<LineFields>)
    requires forall i :: 0 <= i < |lines| ==> WellFormed(lines[i]) && OnOneLine(lines[i])
    ensures ReportLines(ReportText(lines)) == seq(|lines|, i requires 0 <= i < |lines| => Encode(lines[i]))
  {
    var encoded := seq(|lines|, i requires 0 <= i < |lines| => Encode(lines[i]));
    var all := encoded + [""];
    forall i | 0 <= i < |all|
      ensures '\n' !in all[i] && DropCarriageReturn(all[i]) == all[i]
    {
      if i < |lines| {
        EncodeOnOneLine(lines[i]);
      }
    }
    SplitLinesJoin(all);
    FilterAppend(encoded, [""], IsReportLine);
    FilterKeepsAll(encoded, IsReportLine);
  }

  /** The entries of a report of well-formed lines are what the lines are meant to say. */
  lemma ReportTextEntries(fs: seq<LineFields>)
    requires forall i :: 0 <= i < |fs| ==> WellFormed(fs[i]) && OnOneLine(fs[i])
    ensures Entries(ReportLines(ReportText(fs)), DecomposeLine) == seq(|fs|, i requires 0 <= i < |fs| => Intended(fs[i]))
  {
    ReportTextLines(fs);
    EntriesOfEncoded(fs);
  }

  /** Taking apart encoded well-formed lines gives what each is meant to say. */
  lemma EntriesOfEncoded(fs: seq<LineFields>)
    requires forall i :: 0 <= i < |fs| ==> WellFormed(fs[i])
    ensures Entries(seq(|fs|, i requires 0 <= i < |fs| => Encode(fs[i])), DecomposeLine)
      == seq(|fs|, i requires 0 <= i < |fs| => Intended(fs[i]))
  {
    forall i | 0 <= i < |fs|
      ensures DecomposeLine(Encode(fs[i])) == Intended(fs[i])
    {
      DecomposeEncode(fs[i]);
    }
  }

  /**
   * End to end, without a `.gitignore`: in a report of a line for `p`, a line
   * for a test file and a second line for `p`, the two findings of `p` are
   * recorded in report order and the test file leaves no trace.
   */
  lemma TestLineLeavesNoTrace(f1: LineFields, f2: LineFields, f3: LineFields)
    requires WellFormed(f1) && WellFormed(f2) && WellFormed(f3)
    requires OnOneLine(f1) && OnOneLine(f2) && OnOneLine(f3)
    requires f3.path == f1.path
    requires !IsTestFile(StripDotSlash(f1.path)) && StripDotSlash(f1.path) !in InheritedKeys
    requires IsTestFile(StripDotSlash(f2.path))
    ensures Parsed(Some(ReportText([f1, f2, f3])), None)
      == map[StripDotSlash(f1.path) := [Intended(f1).finding, Intended(f3).finding]]
  {
    var fs := [f1, f2, f3];
    ReportTextEntries(fs);
    SkipMiddleIntended(f1, f2, f3, Excluded(Patterns(None)));
  }

  lemma SkipMiddleIntended(f1: LineFields, f2: LineFields, f3: LineFields, excluded: string -> bool)
    requires f3.path == f1.path
    requires !excluded(StripDotSlash(f1.path)) && StripDotSlash(f1.path) !in InheritedKeys
    requires excluded(StripDotSlash(f2.path))
    ensures var fs := [f1, f2, f3];
      FindingsMap(seq(|fs|, i requires 0 <= i < |fs| => Intended(fs[i])), excluded, InheritedKeys)
        == map[StripDotSlash(f1.path) := [Intended(f1).finding, Intended(f3).finding]]
  {
    IntendedThree(f1, f2, f3);
    SkipMiddle(Intended(f1), Intended(f2), Intended(f3), excluded, InheritedKeys);
  }

  lemma IntendedThree(f1: LineFields, f2: LineFields, f3: LineFields)
    ensures var fs := [f1, f2, f3];
      seq(|fs|, i requires 0 <= i < |fs| => Intended(fs[i])) == [Intended(f1), Intended(f2), Intended(f3)]
  {
  }

  /** Three lines of which the middle one is not kept and the outer two name the same kept path. */
  lemma SkipMiddle(e1: Entry, e2: Entry, e3: Entry, excluded: string -> bool, reserved: set<string>)
    requires Kept(e1, excluded, reserved) && !Kept(e2, excluded, reserved) && e3.path == e1.path
    ensures FindingsMap([e1, e2, e3], excluded, reserved) == map[e1.path := [e1.finding, e3.finding]]
  {
    UnkeptLineIrrelevant([e1], e2, [e3], excluded, reserved);
    assert [e1] + [e2] + [e3] == [e1, e2, e3];
    var kept := [e1, e3];
    assert [e1] + [e3] == kept;
    assert kept[..1] == [e1] && [e1][..0] == [];
    assert Kept(e3, excluded, reserved);
    assert FindingsFor([e1], excluded, reserved, e1.path) == [e1.finding];
    assert FindingsFor(kept, excluded, reserved, e1.path) == [e1.finding, e3.finding];
    assert Paths(kept) == {e1.path};
  }

  /**
   * A report of one well-formed line for a path that is not a test file: the
   * current parser records it unless the path is an inherited member name, and
   * the corrected one always records it.
   */
  lemma OneLineReport(f: LineFields)
    requires WellFormed(f) && OnOneLine(f) && !IsTestFile(StripDotSlash(f.path))
    ensures var e := Intended(f);
      && Parsed(Some(ReportText([f])), None) == (if e.path in InheritedKeys then map[] else map[e.path := [e.finding]])
      && ParsedOwnKeys(Some(ReportText([f])), None) == map[e.path := [e.finding]]
  {
    ReportTextEntries([f]);
    var e := Intended(f);
    assert seq(1, i requires 0 <= i < 1 => Intended([f][i])) == [e];
    SingleEntry(e, Excluded(Patterns(None)), InheritedKeys);
    SingleEntry(e, Excluded(Patterns(None)), {});
  }

  /**
   * A file named `constructor` at the workspace root: `fileErrors["constructor"]`
   * is `Object.prototype.constructor`, so no list is created, `push` throws, and
   * its finding is lost.
   */
  lemma ConstructorFindingLost()
    ensures Parsed(Some(ReportText([LineFields("constructor", 3, "MAJOR", "C-F3", "")])), None) == map[]
    ensures ParsedOwnKeys(Some(ReportText([LineFields("constructor", 3, "MAJOR", "C-F3", "")])), None)
      == map["constructor" := [Finding(Some(2), "MAJOR", Some("C-F3"), "MAJOR:C-F3:")]]
  {
    var f := LineFields("constructor", 3, "MAJOR", "C-F3", "");
    ConstructorLine();
    OneLineReport(f);
  }

  lemma ConstructorLine()
    ensures var f := LineFields("constructor", 3, "MAJOR", "C-F3", "");
      && WellFormed(f) && OnOneLine(f)
      && StripDotSlash(f.path) == "constructor" && !IsTestFile("constructor")
      && Intended(f).finding == Finding(Some(2), "MAJOR", Some("C-F3"), "MAJOR:C-F3:")
  {
    ConstructorFields();
    ConstructorOnOneLine();
    ConstructorNotTest();
  }

  lemma ConstructorFields()
    ensures WellFormed(LineFields("constructor", 3, "MAJOR", "C-F3", ""))
    ensures Intended(LineFields("constructor", 3, "MAJOR", "C-F3", "")).finding
      == Finding(Some(2), "MAJOR", Some("C-F3"), "MAJOR:C-F3:")
  {
  }

  lemma ConstructorOnOneLine()
    ensures OnOneLine(LineFields("constructor", 3, "MAJOR", "C-F3", ""))
  {
  }

  lemma ConstructorNotTest()
    ensures StripDotSlash("constructor") == "constructor" && !IsTestFile("constructor")
  {
    assert "constructor"[..2][0] == 'c';
    assert "constructor"[..6][0] == 'c';
    forall i | 0 <= i <= 4
      ensures !OccursAt("constructor", "/tests/", i)
    {
      assert "constructor"[i..i + 7][0] == "constructor"[i];
    }
  }

  /**
   * A line without any colon is not rejected: it is recorded under its own text,
   * with a NaN line number, an empty severity and message, and no code.
   */
  lemma ColonFreeLine(line: string)
    requires line != "" && ':' !in line && '\n' !in line && DropCarriageReturn(line) == line
    requires !IsTestFile(StripDotSlash(line)) && StripDotSlash(line) !in InheritedKeys
    ensures Parsed(Some(line), None) == map[StripDotSlash(line) := [Finding(None, "", None, "")]]
  {
    SingleLineReport(line);
    DecomposeNoColon(line);
    var e := DecomposeLine(line);
    ParsedOneLine(line, e);
    OnlyTestsWithoutGitignore(e.path);
    SingleEntry(e, Excluded(Patterns(None)), InheritedKeys);
  }

  /** A report that is one line is parsed from that line's entry alone. */
  lemma ParsedOneLine(line: string, e: Entry)
    requires ReportLines(line) == [line] && DecomposeLine(line) == e
    ensures Parsed(Some(line), None) == FindingsMap([e], Excluded(Patterns(None)), InheritedKeys)
  {
    assert Entries([line], DecomposeLine) == [e];
  }

  /** A report of one non-empty line without line breaks has that one line. */
  lemma SingleLineReport(line: string)
    requires line != "" && '\n' !in line && DropCarriageReturn(line) == line
    ensures ReportLines(line) == [line]
  {
    SplitLinesJoin([line]);
    FilterKeepsAll([line], IsReportLine);
  }

  /** Without a `.gitignore`, exactly the test files are skipped. */
  lemma OnlyTestsWithoutGitignore(path: string)
    ensures Excluded(Patterns(None))(path) <==> IsTestFile(path)
  {
    assert Patterns(None) == [];
  }

  /** The report `onlyonecolon` yields one finding for the path `onlyonecolon`. */
  lemma OnlyOneColonReport()
    ensures Parsed(Some("onlyonecolon"), None) == map["onlyonecolon" := [Finding(None, "", None, "")]]
  {
    var line := "onlyonecolon";
    assert !StartsWith(line, "./") by { assert line[..2][0] == 'o'; }
    NoSlashNoTest(line);
    NotInherited(line);
    ColonFreeLine(line);
  }

  /** The sample report: `./src/main.c` twice around a line for `tests/unit.c`. */
  lemma SampleReport()
    ensures Parsed(Some(ReportText(SampleFields)), None)
      == map["src/main.c" := [
        Finding(Some(11), "MAJOR", Some("C-F3"), "MAJOR:C-F3:line too long"),
        Finding(Some(39), "MINOR", Some("C-G7"), "MINOR:C-G7:trailing space")]]
  {
    var fs := SampleFields;
    SampleFieldsWellFormed();
    SamplePaths();
    SampleIntended();
    assert fs == [fs[0], fs[1], fs[2]];
    TestLineLeavesNoTrace(fs[0], fs[1], fs[2]);
  }

  lemma SampleIntended()
    ensures StripDotSlash(SampleFields[0].path) == "src/main.c" && StripDotSlash(SampleFields[1].path) == "tests/unit.c"
    ensures Intended(SampleFields[0]).finding == Finding(Some(11), "MAJOR", Some("C-F3"), "MAJOR:C-F3:line too long")
    ensures Intended(SampleFields[2]).finding == Finding(Some(39), "MINOR", Some("C-G7"), "MINOR:C-G7:trailing space")
  {
    SamplePathsStripped();
    SampleMessages();
  }

  lemma SamplePathsStripped()
    ensures StripDotSlash("./src/main.c") == "src/main.c" && StripDotSlash("tests/unit.c") == "tests/unit.c"
  {
    assert StartsWith("./src/main.c", "./");
    assert !StartsWith("tests/unit.c", "./") by { assert "tests/unit.c"[..2][0] == 't'; }
    assert "./src/main.c"[2..] == "src/main.c";
  }

  lemma SampleMessages()
    ensures "MAJOR" + ":" + "C-F3" + ":" + "line too long" == "MAJOR:C-F3:line too long"
    ensures "MINOR" + ":" + "C-G7" + ":" + "trailing space" == "MINOR:C-G7:trailing space"
  {
  }

  const SampleFields: seq<LineFields> := [
    LineFields("./src/main.c", 12, "MAJOR", "C-F3", "line too long"),
    LineFields("tests/unit.c", 5, "MINOR", "C-L2", "bad indent"),
    LineFields("./src/main.c", 40, "MINOR", "C-G7", "trailing space")
  ]

  lemma SampleFieldsWellFormed()
    ensures forall i :: 0 <= i < |SampleFields| ==> WellFormed(SampleFields[i]) && OnOneLine(SampleFields[i])
  {
    SampleLineWellFormed0();
    SampleLineOnOneLine0();
    SampleLineWellFormed1();
    SampleLineOnOneLine1();
    SampleLineWellFormed2();
    SampleLineOnOneLine2();
  }

  /** No field of a sample line holds `:` or a line break, and none starts or ends with white space. */
  lemma SampleLineWellFormed0()
    ensures WellFormed(LineFields("./src/main.c", 12, "MAJOR", "C-F3", "line too long"))
  {
  }

  lemma SampleLineOnOneLine0()
    ensures OnOneLine(LineFields("./src/main.c", 12, "MAJOR", "C-F3", "line too long"))
  {
  }

  lemma SampleLineWellFormed1()
    ensures WellFormed(LineFields("tests/unit.c", 5, "MINOR", "C-L2", "bad indent"))
  {
  }

  lemma SampleLineOnOneLine1()
    ensures OnOneLine(LineFields("tests/unit.c", 5, "MINOR", "C-L2", "bad indent"))
  {
  }

  lemma SampleLineWellFormed2()
    ensures WellFormed(LineFields("./src/main.c", 40, "MINOR", "C-G7", "trailing space"))
  {
  }

  lemma SampleLineOnOneLine2()
    ensures OnOneLine(LineFields("./src/main.c", 40, "MINOR", "C-G7", "trailing space"))
  {
  }

  lemma SamplePaths()
    ensures !IsTestFile("src/main.c") && IsTestFile("tests/unit.c")
    ensures "src/main.c" !in InheritedKeys
  {
    assert StartsWith("tests/unit.c", "tests/");
    assert "src/main.c"[..6][0] == 's';
    forall i | 0 <= i <= 3
      ensures !OccursAt("src/main.c", "/tests/", i)
    {
      assert "src/main.c"[i..i + 7][1] == "src/main.c"[i + 1];
    }
  }
}
