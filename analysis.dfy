/**
 * What the two revisions of the run coordinator (`src/services/analyzer-service.ts`
 * and `src/core/analyzer.ts`) share: which documents are analysed, how the
 * findings are counted, and how they are published as diagnostics.
 */
module Analysis {
  import opened Wrappers
  import opened ReportFormat
  import Constants
  import Diagnostics
  import Docker
  import CoreParser

  /**
   * The document a trigger names: its language, its URI and the workspace
   * folder VS Code finds for that URI, if any.
   */
  datatype Document = Document(languageId: string, uri: string, workspaceFolder: Option<string>)

  /** `isDocumentValid`: not of a banned language, and inside a workspace folder. */
  predicate IsDocumentValid(doc: Document) {
    doc.languageId !in Constants.BannedExtensions && doc.workspaceFolder.Some?
  }

  /** Only Markdown documents, and documents outside every workspace folder, are refused. */
  lemma DocumentValidity(doc: Document)
    ensures IsDocumentValid(doc) <==> doc.languageId != "md" && doc.workspaceFolder.Some?
  {
    assert Constants.BannedExtensions == ["md"];
  }

  /** What a trigger answers at once: a deferred promise, an immediate count, or a started run. */
  datatype Answer = Deferred | Answered(count: int) | Started

  /** How the awaited part of a run ends: the report the container left (if any), or the error it raised. */
  type RunOutcome = Result<Option<string>, Docker.CheckError>

  /** The message box shown when a run fails. */
  function FailureNotice(e: Docker.CheckError): string {
    "Failed to analyze workspace\n" + Docker.ErrorMessage(e)
  }

  /** `path.resolve(workspaceRoot, filePath)`, for a relative path under the root. */
  function Resolve(root: string, path: string): string {
    root + "/" + path
  }

  /** Different relative paths resolve to different files. */
  lemma ResolveInjective(root: string, a: string, b: string)
    requires Resolve(root, a) == Resolve(root, b)
    ensures a == b
  {
    var n := |root| + 1;
    assert Resolve(root, a)[n..] == a;
    assert Resolve(root, b)[n..] == b;
  }

  /** `Object.values(fileErrorsMap).reduce((sum, errors) => sum + errors.length, 0)`. */
  method CountFindings(m: FileFindings) returns (total: nat)
    ensures total == TotalFindings(m)
  {
    total := 0;
    var keys := m.Keys;
    while keys != {}
      invariant keys <= m.Keys
      invariant total + SumLengths(m, keys) == TotalFindings(m)
      decreases keys
    {
      var k :| k in keys;
      SumLengthsRemove(m, keys, k);
      total := total + |m[k]|;
      keys := keys - {k};
    }
  }

  /** The URI a relative path of the result is published under. */
  predicate PublishedUri<V>(root: string, m: map<string, V>, u: string) {
    exists k :: k in m && Resolve(root, k) == u
  }

  /**
   * `after` is `before` with each file of `m` published: its findings'
   * diagnostics under its resolved URI, every other URI as it was.
   */
  ghost predicate PublishedAll(before: map<string, seq<Diagnostics.Diag>>, after: map<string, seq<Diagnostics.Diag>>,
                               root: string, m: FileFindings)
  {
    && (forall k :: k in m ==> Resolve(root, k) in after && after[Resolve(root, k)] == Diagnostics.CreateAll(m[k]))
    && (forall u :: u in after <==> u in before || PublishedUri(root, m, u))
    && (forall u :: u in before && !PublishedUri(root, m, u) ==> after[u] == before[u])
  }

  /** A run's result processing: `count` findings in all, and every file of `m` published. */
  ghost predicate Processed(before: map<string, seq<Diagnostics.Diag>>, after: map<string, seq<Diagnostics.Diag>>,
                            root: string, m: FileFindings, count: nat)
  {
    count == TotalFindings(m) && PublishedAll(before, after, root, m)
  }

  /** `after` is `before` with the files `done` of `want` published, each under its resolved URI. */
  ghost predicate PublishedSome<V>(before: map<string, V>, after: map<string, V>, root: string,
                                   want: map<string, V>, done: set<string>)
  {
    && done <= want.Keys
    && (forall k :: k in done ==> Resolve(root, k) in after && after[Resolve(root, k)] == want[k])
    && (forall u :: u in after <==> u in before || exists k :: k in done && Resolve(root, k) == u)
    && (forall u :: u in before && !PublishedUri(root, want, u) ==> after[u] == before[u])
  }

  /** Publishing one more file adds its URI and leaves the other published files as they were. */
  lemma PublishStep<V>(before: map<string, V>, after: map<string, V>, root: string,
                       want: map<string, V>, done: set<string>, k: string)
    requires k in want && k !in done
    requires PublishedSome(before, after, root, want, done)
    ensures PublishedSome(before, after[Resolve(root, k) := want[k]], root, want, done + {k})
  {
    forall j | j in done ensures Resolve(root, j) != Resolve(root, k) {
      if Resolve(root, j) == Resolve(root, k) {
        ResolveInjective(root, j, k);
      }
    }
  }

  /** The diagnostics each file of `m` is to show. */
  function Wanted(m: FileFindings): (want: map<string, seq<Diagnostics.Diag>>)
    ensures want.Keys == m.Keys
    ensures forall k :: k in m ==> want[k] == Diagnostics.CreateAll(m[k])
  {
    map k | k in m :: Diagnostics.CreateAll(m[k])
  }

  /** Once every file is published, `after` is `before` with all of `m` published. */
  lemma PublishedEvery(before: map<string, seq<Diagnostics.Diag>>, after: map<string, seq<Diagnostics.Diag>>,
                       root: string, m: FileFindings)
    requires PublishedSome(before, after, root, Wanted(m), m.Keys)
    ensures PublishedAll(before, after, root, m)
  {
    assert forall u :: PublishedUri(root, Wanted(m), u) <==> PublishedUri(root, m, u);
  }

  /** `Object.entries(fileErrorsMap).forEach(...)`: `updateDiagnostics` for each file of the result. */
  method Publish(diagnostics: Diagnostics.DiagnosticCollection, root: string, m: FileFindings)
    modifies diagnostics
    ensures PublishedAll(old(diagnostics.entries), diagnostics.entries, root, m)
  {
    ghost var want := Wanted(m);
    var keys := m.Keys;
    while keys != {}
      invariant keys <= m.Keys
      invariant PublishedSome(old(diagnostics.entries), diagnostics.entries, root, want, m.Keys - keys)
      decreases keys
    {
      var filePath :| filePath in keys;
      PublishStep(old(diagnostics.entries), diagnostics.entries, root, want, m.Keys - keys, filePath);
      diagnostics.Update(Resolve(root, filePath), m[filePath]);
      assert m.Keys - (keys - {filePath}) == (m.Keys - keys) + {filePath};
      keys := keys - {filePath};
    }
    PublishedEvery(old(diagnostics.entries), diagnostics.entries, root, m);
  }

  /**
   * The result processing of `analyze`: parse the report, count the findings
   * and publish each file's diagnostics.
   */
  method ProcessReport(diagnostics: Diagnostics.DiagnosticCollection, root: string,
                       report: Option<string>, gitignore: Option<string>)
    returns (count: nat)
    modifies diagnostics
    ensures count == TotalFindings(CoreParser.Parsed(report, gitignore))
    ensures PublishedAll(old(diagnostics.entries), diagnostics.entries, root, CoreParser.Parsed(report, gitignore))
  {
    var fileErrorsMap := CoreParser.ParseReport(report, gitignore);
    count := CountFindings(fileErrorsMap);
    Publish(diagnostics, root, fileErrorsMap);
  }
}
