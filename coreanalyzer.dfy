/**
 * The run coordinator of `src/core/analyzer.ts`, the same machine as in
 * `src/services/analyzer-service.ts` except that a run empties only the
 * triggering document's diagnostics. A call of
 * `analyze` is split at its one `await`: `Trigger` is the part up to the
 * container run, `RunComplete` the part after it, and `TimerFire` the
 * debounce timer's callback. At most one run is in flight; a trigger during
 * a run only re-arms the single timer, and the end of the run clears it.
 */
module CoreAnalyzer {
  import opened Wrappers
  import opened ReportFormat
  import CoreParser
  import Diagnostics
  import Docker
  import opened Analysis

  class Analyzer {
    /** `isAnalysisRunning`. */
    var running: bool
    /** `debounceTimer`: when armed, the document its callback analyses again. */
    var timer: Option<Document>
    /** The document of the suspended `analyze` call that awaits its container. */
    var inFlight: Option<Document>
    /** The report file of each workspace root (`.vscode/coding-style-reports.log`), when it exists. */
    var reports: map<string, string>
    /** The extension's diagnostic collection. */
    const diagnostics: Diagnostics.DiagnosticCollection
    /** How many runs have started. */
    ghost var runs: nat

    /**
     * The timer is armed only during a run, a run is in flight exactly while
     * the flag is set, and the stale report of the running root is gone.
     */
    ghost predicate Valid()
      reads this
    {
      && (timer.Some? ==> running)
      && (running <==> inFlight.Some?)
      && (inFlight.Some? ==>
            IsDocumentValid(inFlight.value) && inFlight.value.workspaceFolder.value !in reports)
    }

    constructor (diagnostics: Diagnostics.DiagnosticCollection, reports: map<string, string>)
      ensures Valid() && !running && timer.None? && inFlight.None? && runs == 0
      ensures this.diagnostics == diagnostics && this.reports == reports
    {
      running := false;
      timer := None;
      inFlight := None;
      this.reports := reports;
      this.diagnostics := diagnostics;
      runs := 0;
    }

    /** `clearDebounceTimer`: no timer is left armed. */
    method ClearDebounceTimer()
      modifies this`timer
      ensures timer.None?
    {
      if timer.Some? {
        timer := None;
      }
    }

    /**
     * `analyze(doc)` up to its `await`. During a run it only replaces the armed
     * timer by one for `doc`. Otherwise an invalid document answers 0 and
     * changes nothing; a valid one starts a run that first empties the
     * document's own diagnostics and deletes its root's old report.
     */
    method Trigger(doc: Document) returns (answer: Answer)
      requires Valid()
      modifies this, diagnostics
      ensures Valid()
      ensures old(running) ==>
        && answer == Deferred && timer == Some(doc) && running
        && inFlight == old(inFlight) && reports == old(reports) && runs == old(runs)
        && diagnostics.entries == old(diagnostics.entries)
      ensures !old(running) && !IsDocumentValid(doc) ==>
        && answer == Answered(0) && !running && timer.None?
        && inFlight == old(inFlight) && reports == old(reports) && runs == old(runs)
        && diagnostics.entries == old(diagnostics.entries)
      ensures !old(running) && IsDocumentValid(doc) ==>
        && answer == Started && running && inFlight == Some(doc) && timer.None?
        && reports == old(reports) - {doc.workspaceFolder.value} && runs == old(runs) + 1
        && diagnostics.entries == old(diagnostics.entries)[doc.uri := []]
    {
      if running {
        ClearDebounceTimer();
        timer := Some(doc);
        return Deferred;
      }
      if !IsDocumentValid(doc) {
        return Answered(0);
      }
      running := true;
      var root := doc.workspaceFolder.value;
      diagnostics.Update(doc.uri, []);
      if root in reports {
        reports := reports - {root};
      }
      inFlight := Some(doc);
      runs := runs + 1;
      answer := Started;
    }

    /**
     * The timer's callback, `this.analyze(doc)` for its document. A timer is
     * armed only during a run, so the call re-arms it and no run starts.
     */
    method TimerFire() returns (answer: Answer)
      requires Valid() && timer.Some?
      modifies this, diagnostics
      ensures Valid()
      ensures answer == Deferred && timer == old(timer) && running
      ensures inFlight == old(inFlight) && reports == old(reports) && runs == old(runs)
      ensures diagnostics.entries == old(diagnostics.entries)
    {
      answer := Trigger(timer.value);
    }

    /**
     * `analyze(doc)` after its `await`. On success the report the container
     * left is parsed, its findings are counted and each file is published
     * under its resolved URI; on failure the answer is 0 and a notice is shown.
     * Either way the flag is reset and the armed timer cleared, so a trigger
     * that arrived during the run never leads to another one.
     */
    method RunComplete(outcome: RunOutcome, gitignore: Option<string>) returns (count: nat, notice: Option<string>)
      requires Valid() && running
      modifies this, diagnostics
      ensures Valid()
      ensures !running && timer.None? && inFlight.None? && runs == old(runs)
      ensures outcome.Failure? ==>
        && count == 0 && notice == Some(FailureNotice(outcome.error))
        && reports == old(reports) && diagnostics.entries == old(diagnostics.entries)
      ensures outcome.Success? ==>
        var root := old(inFlight).value.workspaceFolder.value;
        var found := CoreParser.Parsed(outcome.value, gitignore);
        && notice.None?
        && reports == (if outcome.value.Some? then old(reports)[root := outcome.value.value] else old(reports))
        && Processed(old(diagnostics.entries), diagnostics.entries, root, found, count)
    {
      var root := inFlight.value.workspaceFolder.value;
      if outcome.Failure? {
        count, notice := 0, Some(FailureNotice(outcome.error));
      } else {
        count := Record(root, outcome.value, gitignore);
        notice := None;
      }
      Finish();
    }

    /** The `finally` block: the run is over and no timer is left armed. */
    method Finish()
      modifies this`running, this`timer, this`inFlight
      ensures !running && timer.None? && inFlight.None?
    {
      running := false;
      ClearDebounceTimer();
      inFlight := None;
    }

    /**
     * The success path of a run: the report the container left becomes the
     * root's report file (deleted when the run started), and its findings are
     * counted and published.
     */
    method Record(root: string, written: Option<string>, gitignore: Option<string>) returns (count: nat)
      requires root !in reports
      modifies this`reports, diagnostics
      ensures reports == if written.Some? then old(reports)[root := written.value] else old(reports)
      ensures Processed(old(diagnostics.entries), diagnostics.entries, root, CoreParser.Parsed(written, gitignore), count)
    {
      if written.Some? {
        reports := reports[root := written.value];
      }
      var report := if root in reports then Some(reports[root]) else None;
      assert report == written;
      count := ProcessReport(diagnostics, root, report, gitignore);
    }
  }
}
