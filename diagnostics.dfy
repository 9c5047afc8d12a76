/**
 * The current diagnostics (`Diagnostics` in `src/core/diagnostics.ts`): each
 * finding becomes one diagnostic on its line, and a collection keyed by
 * document URI holds what the editor shows.
 */
module Diagnostics {
  import opened Wrappers
  import opened ReportFormat
  import Constants

  /** `vscode.DiagnosticSeverity`. */
  datatype Level = Error | Warning | Information | Hint

  /** `Number.MAX_VALUE` marks the end of the line; `None` stands for a NaN line number. */
  datatype Range = Range(startLine: Option<int>, startColumn: int, endLine: Option<int>, endColumn: int)

  /** A `vscode.Diagnostic` with the `source` and `code` properties this extension sets. */
  datatype Diag = Diag(range: Range, message: string, level: Level, source: Option<string>, code: Option<string>)

  /** The `severityMap` record of `getSeverityLevel`. */
  const SeverityMap: map<string, Level> := map["MAJOR" := Warning, "MINOR" := Warning, "INFO" := Information]

  /** `getSeverityLevel`: the record's entry, or `Hint` for any other severity. */
  function SeverityLevel(severity: string): Level {
    if severity in SeverityMap then SeverityMap[severity] else Hint
  }

  /** The three known severities and the fallback, each way round; `Error` is never produced. */
  lemma SeverityLevelCases(severity: string)
    ensures SeverityLevel(severity) == Warning <==> severity == "MAJOR" || severity == "MINOR"
    ensures SeverityLevel(severity) == Information <==> severity == "INFO"
    ensures SeverityLevel(severity) == Hint <==> severity !in {"MAJOR", "MINOR", "INFO"}
    ensures SeverityLevel(severity) != Error
  {
  }

  /** How a template literal renders a code: an absent code reads `undefined`. */
  function CodeText(code: Option<string>): string {
    match code
    case None => "undefined"
    case Some(c) => c
  }

  /** `ERROR_DESCRIPTIONS[error.code] || "No description available"`. */
  function Description(code: Option<string>): (d: string)
    ensures d != ""
  {
    var key := CodeText(code);
    if key in Constants.ErrorDescriptions && Constants.ErrorDescriptions[key] != "" then
      Constants.ErrorDescriptions[key]
    else
      "No description available"
  }

  /** A known rule gets its sentence; any other code, or none, gets the fallback. */
  lemma DescriptionCases(code: Option<string>)
    ensures code.Some? && code.value in Constants.ErrorDescriptions
      ==> Description(code) == Constants.ErrorDescriptions[code.value]
    ensures (code.None? || code.value !in Constants.ErrorDescriptions)
      ==> Description(code) == "No description available"
  {
    if code.Some? && code.value in Constants.ErrorDescriptions {
      TableHasNoEmptySentence(code.value);
    } else if code.None? {
      UndefinedIsNoCode();
    }
  }

  /** The text `undefined`, which an absent code renders as, names no rule. */
  lemma UndefinedIsNoCode()
    ensures "undefined" !in Constants.ErrorDescriptions
  {
  }

  /** Every sentence of the table is non-empty, so the `||` fallback never hides one. */
  lemma TableHasNoEmptySentence(key: string)
    requires key in Constants.ErrorDescriptions
    ensures Constants.ErrorDescriptions[key] != ""
  {
  }

  /** `createDiagnostic`. */
  function CreateDiagnostic(f: Finding): Diag {
    Diag(Range(f.line, 0, f.line, Constants.MaxValue),
         CodeText(f.code) + " - " + Description(f.code),
         SeverityLevel(f.severity),
         Some(Constants.ConfigSection),
         f.code)
  }

  /**
   * What a diagnostic carries of its finding: it covers the finding's line from
   * column 0 to the end, names the rule before ` - ` in its message, and keeps the
   * rule as its code under the extension's own source name.
   */
  lemma DiagnosticOfFinding(f: Finding)
    ensures var d := CreateDiagnostic(f);
      && d.range.startLine == d.range.endLine == f.line
      && d.range.startColumn == 0 && d.range.endColumn == Constants.MaxValue
      && StartsWithCode(d.message, f.code)
      && d.code == f.code && d.source == Some("epitech-coding-style")
  {
    var m := CreateDiagnostic(f).message;
    assert m[..|CodeText(f.code) + " - "|] == CodeText(f.code) + " - ";
  }

  /** The message opens with the rule's code (or `undefined`) and ` - `. */
  predicate StartsWithCode(message: string, code: Option<string>) {
    var head := CodeText(code) + " - ";
    |head| <= |message| && message[..|head|] == head
  }

  /** The sample report's `C-F3` finding: a warning reading `C-F3 - Line exceeds 80 columns`. */
  lemma LineTooLongExample()
    ensures CreateDiagnostic(Finding(Some(11), "MAJOR", Some("C-F3"), "MAJOR:C-F3:")) ==
      Diag(Range(Some(11), 0, Some(11), Constants.MaxValue), "C-F3 - Line exceeds 80 columns",
           Warning, Some("epitech-coding-style"), Some("C-F3"))
  {
    LineTooLongDescribed();
    LineTooLongMessage();
    assert SeverityLevel("MAJOR") == Warning;
  }

  lemma LineTooLongMessage()
    ensures "C-F3" + " - " + "Line exceeds 80 columns" == "C-F3 - Line exceeds 80 columns"
  {
  }

  /** The table's sentence for `C-F3`. */
  lemma LineTooLongDescribed()
    ensures Description(Some("C-F3")) == "Line exceeds 80 columns"
  {
    assert Constants.ErrorDescriptions["C-F3"] == "Line exceeds 80 columns";
  }

  /** `errors.map((error) => this.createDiagnostic(error))`: one diagnostic per finding, in order. */
  function CreateAll(findings: seq<Finding>): (ds: seq<Diag>)
    ensures |ds| == |findings|
    ensures forall i :: 0 <= i < |findings| ==> ds[i] == CreateDiagnostic(findings[i])
  {
    seq(|findings|, i requires 0 <= i < |findings| => CreateDiagnostic(findings[i]))
  }

  /** Diagnostics for two lists of findings, one after the other, are those of the joined list. */
  lemma CreateAllAppend(a: seq<Finding>, b: seq<Finding>)
    ensures CreateAll(a + b) == CreateAll(a) + CreateAll(b)
  {
  }

  /** The editor's diagnostic collection, from document URI to the diagnostics shown for it. */
  class DiagnosticCollection {
    var entries: map<string, seq<Diag>>

    /** `vscode.languages.createDiagnosticCollection("coding-style")`. */
    constructor ()
      ensures entries == map[]
    {
      entries := map[];
    }

    /** `updateDiagnostics`: the URI shows exactly the findings' diagnostics; other URIs keep theirs. */
    method Update(uri: string, findings: seq<Finding>)
      modifies this
      ensures entries == old(entries)[uri := CreateAll(findings)]
      ensures |entries[uri]| == |findings|
      ensures forall u :: u in old(entries) && u != uri ==> u in entries && entries[u] == old(entries)[u]
    {
      var diagnostics := CreateAll(findings);
      entries := entries[uri := diagnostics];
    }

    /** `clearDiagnostics`: no URI shows anything. */
    method Clear()
      modifies this
      ensures entries == map[]
    {
      entries := map[];
    }
  }
}
