/**
 * The earlier parser (`ParserService.parseReport` in `src/parser.ts`): both
 * files are split at `\n` only, patterns are trimmed, lines of white space are
 * skipped, and a pattern must match the whole path.
 */
module LegacyParser {
  import opened Wrappers
  import opened JsString
  import opened Glob
  import opened ReportFormat
  import CoreParser

  /** A trimmed `.gitignore` line that is used as a pattern. */
  predicate IsPattern(line: string) {
    line != "" && !StartsWith(line, "#")
  }

  /** The `.gitignore` lines, each trimmed, without blanks and comments; none without the file. */
  function Patterns(gitignore: Option<string>): (ps: seq<string>)
    ensures gitignore.None? ==> ps == []
    ensures forall i :: 0 <= i < |ps| ==> IsPattern(ps[i])
    ensures gitignore.Some? ==> forall i :: 0 <= i < |ps| ==> ps[i] in TrimAll(Split(gitignore.value, '\n'))
    ensures gitignore.Some? ==> forall i ::
      (0 <= i < |Split(gitignore.value, '\n')| && IsPattern(TrimAll(Split(gitignore.value, '\n'))[i]))
        ==> TrimAll(Split(gitignore.value, '\n'))[i] in ps
    ensures gitignore.Some? ==> exists ix :: Selects(ix, TrimAll(Split(gitignore.value, '\n')), ps, IsPattern)
  {
    match gitignore
    case None => []
    case Some(text) =>
      FilterSelects(TrimAll(Split(text, '\n')), IsPattern);
      Filter(TrimAll(Split(text, '\n')), IsPattern)
  }

  /** `lines.map((line) => line.trim())` */
  function TrimAll(lines: seq<string>): (t: seq<string>)
    ensures |t| == |lines| && forall i :: 0 <= i < |lines| ==> t[i] == Trim(lines[i])
  {
    seq(|lines|, i requires 0 <= i < |lines| => Trim(lines[i]))
  }

  /** Every pattern is already trimmed, and every non-blank, non-comment line gives its trimmed self. */
  lemma PatternsTrimmed(text: string)
    ensures forall i :: 0 <= i < |Patterns(Some(text))| ==> Trim(Patterns(Some(text))[i]) == Patterns(Some(text))[i]
    ensures forall i ::
      (0 <= i < |Split(text, '\n')| && IsPattern(Trim(Split(text, '\n')[i])))
        ==> Trim(Split(text, '\n')[i]) in Patterns(Some(text))
  {
    var lines := Split(text, '\n');
    var t := TrimAll(lines);
    var ps := Patterns(Some(text));
    forall i | 0 <= i < |ps| ensures Trim(ps[i]) == ps[i] {
      var j :| 0 <= j < |t| && t[j] == ps[i];
      TrimIdempotent(lines[j]);
    }
    forall i | 0 <= i < |lines| && IsPattern(Trim(lines[i])) ensures Trim(lines[i]) in ps {
      assert t[i] == Trim(lines[i]);
    }
  }

  /** The report's lines that hold something other than white space (`filter((line) => line.trim())`). */
  function ReportLines(text: string): (lines: seq<string>)
    ensures forall i :: 0 <= i < |lines| ==> Trim(lines[i]) != "" && lines[i] in Split(text, '\n')
    ensures forall i ::
      (0 <= i < |Split(text, '\n')| && Trim(Split(text, '\n')[i]) != "")
        ==> Split(text, '\n')[i] in lines
    ensures exists ix :: Selects(ix, Split(text, '\n'), lines, HoldsText)
  {
    FilterSelects(Split(text, '\n'), HoldsText);
    Filter(Split(text, '\n'), HoldsText)
  }

  /** A line of the report that `filter((line) => line.trim())` keeps. */
  predicate HoldsText(line: string) {
    Trim(line) != ""
  }

  /** `isTestFile`, as in the current parser. */
  predicate IsTestFile(path: string) {
    StartsWith(path, "tests/") || Contains(path, "/tests/")
  }

  /**
   * A pattern within the part of regular-expression syntax the model covers:
   * besides the characters the compilation escapes or rewrites (`.`, `*`, `/`),
   * it holds no regular-expression metacharacter.
   */
  predicate Plain(pattern: string) {
    forall i :: 0 <= i < |pattern| ==> pattern[i] !in "\\^$+?()[]{}|"
  }

  /** `isFileIgnored`: `^<compiled pattern>$` matches the whole path for some pattern. */
  predicate IsFileIgnored(path: string, patterns: seq<string>) {
    exists i :: 0 <= i < |patterns| && GlobMatch(patterns[i], path)
  }

  function Excluded(patterns: seq<string>): string -> bool {
    (path: string) => IsTestFile(path) || IsFileIgnored(path, patterns)
  }

  /** What `parseReport` returns; inherited member names are lost as in the current parser. */
  function Parsed(report: Option<string>, gitignore: Option<string>): FileFindings {
    match report
    case None => map[]
    case Some(text) => FindingsMap(Entries(ReportLines(text), DecomposeLine), Excluded(Patterns(gitignore)), InheritedKeys)
  }

  /** `ParserService.parseReport`, for a `.gitignore` whose patterns are plain. */
  method ParseReport(report: Option<string>, gitignore: Option<string>) returns (r: FileFindings)
    requires forall i :: 0 <= i < |Patterns(gitignore)| ==> Plain(Patterns(gitignore)[i])
    ensures report.None? ==> r == map[]
    ensures r == Parsed(report, gitignore)
    ensures report.Some? ==>
      TotalFindings(r) == KeptCount(Entries(ReportLines(report.value), DecomposeLine), Excluded(Patterns(gitignore)), InheritedKeys)
  {
    if report.None? {
      return map[];
    }
    var patterns := Patterns(gitignore);
    var lines := ReportLines(report.value);
    r := CollectFindings(lines, DecomposeLine, Excluded(patterns), InheritedKeys);
  }

  /** No key of the result is a test file, an ignored file, or an inherited member name. */
  lemma ParsedKeysKept(report: Option<string>, gitignore: Option<string>, k: string)
    requires k in Parsed(report, gitignore)
    ensures !IsTestFile(k) && !IsFileIgnored(k, Patterns(gitignore)) && k !in InheritedKeys
  {
    var text := report.value;
    FindingsMapKeys(Entries(ReportLines(text), DecomposeLine), Excluded(Patterns(gitignore)), InheritedKeys, k);
  }

  /** Every line that is neither a test file nor ignored nor inherited has its finding recorded. */
  lemma ParsedRecordsKeptLine(text: string, gitignore: Option<string>, j: int)
    requires 0 <= j < |ReportLines(text)|
    requires var e := DecomposeLine(ReportLines(text)[j]);
      !IsTestFile(e.path) && !IsFileIgnored(e.path, Patterns(gitignore)) && e.path !in InheritedKeys
    ensures var e := DecomposeLine(ReportLines(text)[j]);
      e.path in Parsed(Some(text), gitignore) && e.finding in Parsed(Some(text), gitignore)[e.path]
  {
    var entries := Entries(ReportLines(text), DecomposeLine);
    var ex := Excluded(Patterns(gitignore));
    assert Kept(entries[j], ex, InheritedKeys);
    KeptLineRecorded(entries, ex, InheritedKeys, j);
    FindingsForContains(entries, ex, InheritedKeys, j);
  }

  /** A pattern without `*` excludes exactly the one path equal to it: `build/` excludes only `build/`. */
  lemma LiteralPatternExact(q: string, path: string)
    requires '*' !in q
    ensures IsFileIgnored(path, [q]) <==> path == q
  {
    LiteralMatch(q, path);
    assert [q][0] == q;
  }

  /** So `build/` no longer excludes `build/foo.c`, which the current parser does exclude. */
  lemma DirectoryPatternExamples()
    ensures IsFileIgnored("build/", ["build/"])
    ensures !IsFileIgnored("build/foo.c", ["build/"])
    ensures CoreParser.IsFileIgnored("build/foo.c", ["build/"])
  {
    LiteralPatternExact("build/", "build/");
    LiteralPatternExact("build/", "build/foo.c");
    CoreParser.DirectoryPatternExamples();
  }

  /** Whatever the earlier parser ignores, the current one ignores too. */
  lemma IgnoredByCurrentParser(path: string, patterns: seq<string>)
    requires IsFileIgnored(path, patterns)
    ensures CoreParser.IsFileIgnored(path, patterns)
  {
    var i :| 0 <= i < |patterns| && GlobMatch(patterns[i], path);
    var p := patterns[i];
    var c := CoreParser.CleanPattern(p);
    if EndsWith(p, "/") {
      assert p == c + ['/'];
      LiteralLastMatch(c, '/', path);
      var j := |path| - 1;
      assert path[..j] == path[..|path| - 1];
      assert path[j + 1..] == [];
      assert CoreParser.MatchesDirOrSelf(c, path);
    } else {
      assert CoreParser.MatchesDirOrSelf(c, path);
    }
  }

  /**
   * A report line of white space only: the earlier parser skips it, while the
   * current one records a finding for the path ` `.
   */
  lemma BlankLineSkipped()
    ensures Parsed(Some(" "), None) == map[]
    ensures CoreParser.Parsed(Some(" "), None) == map[" " := [Finding(None, "", None, "")]]
  {
    BlankReportEmpty();
    BlankLineRecorded();
  }

  /** The earlier parser gives nothing for a report that is one space. */
  lemma BlankReportEmpty()
    ensures Parsed(Some(" "), None) == map[]
  {
    BlankReportHasNoLines();
    assert Entries([], DecomposeLine) == [];
    FindingsMapEmpty(Excluded(Patterns(None)), InheritedKeys);
  }

  /** The earlier parser keeps no line of a report that is one space. */
  lemma BlankReportHasNoLines()
    ensures ReportLines(" ") == []
  {
    SplitJoin([" "], '\n');
    assert Split(" ", '\n') == [" "];
    assert Trim(" ") == "";
  }

  /** The current parser records the line ` ` as a finding without a line. */
  lemma BlankLineRecorded()
    ensures CoreParser.Parsed(Some(" "), None) == map[" " := [Finding(None, "", None, "")]]
  {
    assert !StartsWith(" ", "./");
    CoreParser.NoSlashNoTest(" ");
    NotInherited(" ");
    CoreParser.ColonFreeLine(" ");
  }
}
