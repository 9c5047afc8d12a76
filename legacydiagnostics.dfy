/**
 * The earlier diagnostics (`createDiagnostics` in `src/diagnostics.ts`): a
 * `switch` maps severities, MAJOR to an error, and diagnostics carry neither
 * a source nor a code.
 */
module LegacyDiagnostics {
  import opened Wrappers
  import opened ReportFormat
  import Constants
  import opened Diagnostics

  /** `getSeverityLevel`, the `switch` of the earlier revision. */
  function SeverityLevel(severity: string): Level {
    match severity
    case "MAJOR" => Error
    case "MINOR" => Warning
    case "INFO" => Information
    case _ => Hint
  }

  /** Where the two revisions agree on a severity: everywhere but MAJOR. */
  lemma SeverityRevisionsAgree(severity: string)
    ensures SeverityLevel(severity) == Diagnostics.SeverityLevel(severity) <==> severity != "MAJOR"
    ensures severity == "MAJOR" ==> SeverityLevel(severity) == Error && Diagnostics.SeverityLevel(severity) == Warning
  {
  }

  /** One diagnostic of `createDiagnostics`, without `source` or `code`. */
  function CreateDiagnostic(f: Finding): Diag {
    Diag(Range(f.line, 0, f.line, Constants.MaxValue),
         CodeText(f.code) + " - " + Description(f.code),
         SeverityLevel(f.severity),
         None,
         None)
  }

  /** `createDiagnostics`: one diagnostic per finding, in order. */
  function CreateDiagnostics(findings: seq<Finding>): (ds: seq<Diag>)
    ensures |ds| == |findings|
    ensures forall i :: 0 <= i < |findings| ==> ds[i] == CreateDiagnostic(findings[i])
  {
    seq(|findings|, i requires 0 <= i < |findings| => CreateDiagnostic(findings[i]))
  }

  /**
   * Against the current revision, each diagnostic has the same range and
   * message; its level differs exactly for MAJOR findings, and it lacks the
   * source and code.
   */
  lemma RevisionsDiffer(findings: seq<Finding>, i: int)
    requires 0 <= i < |findings|
    ensures var d, c := CreateDiagnostics(findings)[i], CreateAll(findings)[i];
      && d.range == c.range && d.message == c.message
      && (d.level == c.level <==> findings[i].severity != "MAJOR")
      && d.source.None? && d.code.None?
      && c.source == Some(Constants.ConfigSection) && c.code == findings[i].code
  {
    SeverityRevisionsAgree(findings[i].severity);
  }
}
