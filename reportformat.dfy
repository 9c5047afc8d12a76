/**
 * The checker's report format, shared by both revisions of the parser: each
 * line is `<path>:<line>:<SEVERITY>:<CODE>[:<text>]`, taken apart with
 * `split(":")`, and the findings of the kept lines are gathered per path.
 */
module ReportFormat {
  import opened Wrappers
  import opened JsString

  /**
   * One finding. `line` is the reported line number minus one, or `None` for
   * JavaScript's NaN; `code` is `None` when the message has no second field
   * (JavaScript's `undefined`).
   */
  datatype Finding = Finding(line: Option<int>, severity: string, code: Option<string>, message: string)

  /** Findings per workspace-relative path, each list in report order. */
  type FileFindings = map<string, seq<Finding>>

  /** A report line taken apart: its normalised path and the finding it describes. */
  datatype Entry = Entry(path: string, finding: Finding)

  /** One leading `./` is removed from a path. */
  function StripDotSlash(p: string): string {
    if StartsWith(p, "./") then p[2..] else p
  }

  /** `parseInt(field, 10) - 1`, where a missing field is `undefined` and so NaN. */
  function ZeroBasedLine(field: Option<string>): Option<int> {
    match field
    case None => None
    case Some(f) =>
      match ParseInt(f)
      case None => None
      case Some(n) => Some(n - 1)
  }

  /**
   * The destructuring of one line: `[filePath, lineNumberStr, ...rest] = line.split(":")`,
   * then the path loses its `./`.
   */
  function DecomposeLine(line: string): Entry {
    var parts := Split(line, ':');
    Entry(StripDotSlash(parts[0]), FindingOf(parts))
  }

  /**
   * `message = rest.join(":").trim()`, `[severity, code] = message.split(":")`, and the
   * line number from the second field.
   */
  function FindingOf(parts: seq<string>): Finding {
    var message := MessageOf(parts);
    var fields := Split(message, ':');
    var code := if |fields| > 1 then Some(fields[1]) else None;
    var lineNumber := if |parts| > 1 then Some(parts[1]) else None;
    Finding(ZeroBasedLine(lineNumber), fields[0], code, message)
  }

  /** Everything after the second field, rejoined with `:` and trimmed. */
  function MessageOf(parts: seq<string>): string {
    Trim(Join(if |parts| > 2 then parts[2..] else [], ':'))
  }

  /**
   * A line with a colon-free path and a colon-free line number: the path loses
   * its `./`, the line is the number minus one, the message is everything after
   * the second colon, trimmed, and severity and code are its first two fields.
   */
  lemma {:induction false} DecomposeWellFormed(path: string, number: string, rest: string)
    requires ':' !in path && ':' !in number
    ensures var e := DecomposeLine(path + ":" + number + ":" + rest);
      var message := Trim(rest);
      && e.path == StripDotSlash(path)
      && e.finding.line == ZeroBasedLine(Some(number))
      && e.finding.message == message
      && e.finding.severity == Split(message, ':')[0]
      && e.finding.code == (if |Split(message, ':')| > 1 then Some(Split(message, ':')[1]) else None)
  {
    var line := path + ":" + number + ":" + rest;
    var tail := Split(rest, ':');
    var parts := [path, number] + tail;
    assert forall i :: 0 <= i < |parts| ==> ':' !in parts[i];
    assert Join(parts, ':') == line by {
      assert parts[1..][1..] == tail;
      JoinSplit(rest, ':');
    }
    SplitJoin(parts, ':');
    assert parts[2..] == tail;
    JoinSplit(rest, ':');
  }

  /** The fields of a line in the checker's full format; `line` is one-based. */
  datatype LineFields = LineFields(path: string, line: nat, severity: string, code: string, text: string)

  /** The line `<path>:<line>:<SEVERITY>:<CODE>:<text>` that the checker writes, the line number in decimal. */
  function Encode(f: LineFields): string {
    LineOf(f.path, DecimalString(f.line), f.severity, f.code, f.text)
  }

  /** The line `<path>:<number>:<severity>:<code>:<text>`. */
  function LineOf(path: string, number: string, severity: string, code: string, text: string): string {
    path + ":" + number + ":" + (severity + ":" + code + ":" + text)
  }

  /**
   * Fields the checker can write so that they read back: no `:` in the path,
   * severity or code, a severity that starts with a visible character, and a
   * text that does not end in white space.
   */
  predicate WellFormed(f: LineFields) {
    && ':' !in f.path && ':' !in f.severity && ':' !in f.code
    && f.severity != [] && !IsJsSpace(f.severity[0])
    && (f.text == [] || !IsJsSpace(f.text[|f.text| - 1]))
  }

  /** No field holds a line break, so the line is a line of the report. */
  predicate OnOneLine(f: LineFields) {
    '\n' !in f.path && '\n' !in f.severity && '\n' !in f.code && '\n' !in f.text
  }

  /** What a line is meant to say: the path without `./`, the zero-based line, and the message from the severity on. */
  function Intended(f: LineFields): Entry {
    Entry(StripDotSlash(f.path), Finding(Some(f.line - 1), f.severity, Some(f.code), f.severity + ":" + f.code + ":" + f.text))
  }

  /**
   * Taking apart a well-formed line gives back what it is meant to say; in
   * particular a line number `n >= 1` gives the line `n - 1 >= 0`.
   */
  lemma {:induction false} DecomposeEncode(f: LineFields)
    requires WellFormed(f)
    ensures DecomposeLine(Encode(f)) == Intended(f)
  {
    DecomposeNumbered(f.path, f.line, f.severity, f.code, f.text);
    IntendedOf(f, DecomposeLine(Encode(f)));
  }

  /** An entry with the fields of `f`, its line number less one, is what `f` means. */
  lemma IntendedOf(f: LineFields, e: Entry)
    requires e == Entry(StripDotSlash(f.path), Finding(Some(f.line - 1), f.severity, Some(f.code), f.severity + ":" + f.code + ":" + f.text))
    ensures e == Intended(f)
  {
  }

  /** A line whose number is written in decimal: the line is the number less one. */
  lemma DecomposeNumbered(path: string, n: nat, severity: string, code: string, text: string)
    requires ':' !in path && ':' !in severity && ':' !in code
    requires severity != [] && !IsJsSpace(severity[0])
    requires text == [] || !IsJsSpace(text[|text| - 1])
    ensures DecomposeLine(LineOf(path, DecimalString(n), severity, code, text))
      == Entry(StripDotSlash(path), Finding(Some(n - 1), severity, Some(code), severity + ":" + code + ":" + text))
  {
    DigitsOnly(DecimalString(n));
    ReadNumber(n);
    DecomposeFields(path, DecimalString(n), Some(n - 1), severity, code, text);
  }

  /** Taking apart a line with colon-free path, number, severity and code gives its fields, the line being what the number reads as. */
  lemma {:induction false} DecomposeFields(path: string, number: string, line: Option<int>, severity: string, code: string, text: string)
    requires ':' !in path && ':' !in number && ':' !in severity && ':' !in code
    requires ZeroBasedLine(Some(number)) == line
    requires severity != [] && !IsJsSpace(severity[0])
    requires text == [] || !IsJsSpace(text[|text| - 1])
    ensures DecomposeLine(LineOf(path, number, severity, code, text))
      == Entry(StripDotSlash(path), Finding(line, severity, Some(code), severity + ":" + code + ":" + text))
  {
    MessageFields(severity, code, text);
    DecomposeWellFormed(path, number, severity + ":" + code + ":" + text);
  }

  /** A string of digits holds neither `:` nor a line break. */
  lemma DigitsOnly(d: string)
    requires forall i :: 0 <= i < |d| ==> IsDigit(d[i])
    ensures ':' !in d && '\n' !in d
  {
  }

  /** The line number `n` in decimal reads back as `n - 1`. */
  lemma ReadNumber(n: nat)
    ensures ZeroBasedLine(Some(DecimalString(n))) == Some(n - 1)
  {
    var d := DecimalString(n);
    ParseIntDecimal(n, "");
    assert d + "" == d;
    LineOfNumber(d, n);
  }

  /** A field that `parseInt` reads as `n` gives the line `n - 1`. */
  lemma LineOfNumber(field: string, n: int)
    requires ParseInt(field) == Some(n)
    ensures ZeroBasedLine(Some(field)) == Some(n - 1)
  {
  }

  /** An encoded line holds a line break only if one of its fields does, and never ends in white space. */
  lemma EncodeOnOneLine(f: LineFields)
    requires WellFormed(f) && OnOneLine(f)
    ensures '\n' !in Encode(f) && !IsJsSpace(Encode(f)[|Encode(f)| - 1])
  {
    var e := Encode(f);
    DigitsOnly(DecimalString(f.line));
    assert e[|e| - 1] == if f.text == [] then ':' else f.text[|f.text| - 1];
  }

  /** The message `<SEVERITY>:<CODE>:<text>` is its own trim, and its first two fields are severity and code. */
  lemma {:induction false} MessageFields(severity: string, code: string, text: string)
    requires ':' !in severity && ':' !in code
    requires severity != [] && !IsJsSpace(severity[0])
    requires text == [] || !IsJsSpace(text[|text| - 1])
    ensures var rest := severity + ":" + code + ":" + text;
      && Trim(rest) == rest
      && |Split(rest, ':')| > 1 && Split(rest, ':')[0] == severity && Split(rest, ':')[1] == code
  {
    var rest := severity + ":" + code + ":" + text;
    assert rest[0] == severity[0];
    assert rest[|rest| - 1] == if text == [] then ':' else text[|text| - 1];
    TrimUnchanged(rest);
    var tail := Split(text, ':');
    var fields := [severity, code] + tail;
    assert forall i :: 0 <= i < |fields| ==> ':' !in fields[i];
    assert Join(fields, ':') == rest by {
      assert fields[1..][1..] == tail;
      JoinSplit(text, ':');
    }
    SplitJoin(fields, ':');
  }

  /** A line without any colon is still a finding: NaN line, empty severity and message, no code. */
  lemma {:induction false} DecomposeNoColon(line: string)
    requires ':' !in line
    ensures DecomposeLine(line) == Entry(StripDotSlash(line), Finding(None, "", None, ""))
  {
    SplitJoin([line], ':');
    assert Split(line, ':') == [line];
    EmptyMessage();
    assert MessageOf([line]) == "";
  }

  /** An empty remainder gives an empty message with an empty severity and no code. */
  lemma EmptyMessage()
    ensures Trim(Join([], ':')) == "" && Split("", ':') == [""]
  {
    assert Join([], ':') == "";
    assert Trim("") == "";
  }

  /** A line with exactly one colon has a line number but an empty message. */
  lemma {:induction false} DecomposeOneColon(path: string, number: string)
    requires ':' !in path && ':' !in number
    ensures DecomposeLine(path + ":" + number)
      == Entry(StripDotSlash(path), Finding(ZeroBasedLine(Some(number)), "", None, ""))
  {
    SplitJoin([path, number], ':');
    assert Split(path + ":" + number, ':') == [path, number];
    EmptyMessage();
    assert MessageOf([path, number]) == "";
  }

  /**
   * A decomposed line is recorded unless its path is excluded. A `reserved` path
   * is one whose `fileErrors[path]` lookup already yields an inherited member of
   * `Object.prototype`: the `push` onto it throws, and the per-line `catch`
   * drops the line.
   */
  predicate Kept(e: Entry, excluded: string -> bool, reserved: set<string>) {
    !excluded(e.path) && e.path !in reserved
  }

  /** Every line of the report, taken apart by `decompose` (which is `DecomposeLine`). */
  function Entries(lines: seq<string>, decompose: string -> Entry): (es: seq<Entry>)
    ensures |es| == |lines|
    ensures forall j :: 0 <= j < |lines| ==> es[j] == decompose(lines[j])
  {
    seq(|lines|, j requires 0 <= j < |lines| => decompose(lines[j]))
  }

  /** The findings recorded under `key`, in the order of their lines. */
  function FindingsFor(entries: seq<Entry>, excluded: string -> bool, reserved: set<string>, key: string): seq<Finding>
  {
    if entries == [] then []
    else
      var e := entries[|entries| - 1];
      FindingsFor(entries[..|entries| - 1], excluded, reserved, key)
        + (if Kept(e, excluded, reserved) && e.path == key then [e.finding] else [])
  }

  /** The number of lines that are recorded. */
  function KeptCount(entries: seq<Entry>, excluded: string -> bool, reserved: set<string>): nat
  {
    if entries == [] then 0
    else
      KeptCount(entries[..|entries| - 1], excluded, reserved)
        + (if Kept(entries[|entries| - 1], excluded, reserved) then 1 else 0)
  }

  /** The total number of findings over all paths (`Object.values(m).reduce`). */
  ghost function TotalFindings(m: FileFindings): nat {
    SumLengths(m, m.Keys)
  }

  ghost function SumLengths(m: FileFindings, keys: set<string>): nat
    requires keys <= m.Keys
    decreases keys
  {
    if keys == {} then 0
    else
      var k :| k in keys;
      |m[k]| + SumLengths(m, keys - {k})
  }

  /** Each file's list can be taken out of the sum first. */
  lemma {:induction false} SumLengthsRemove(m: FileFindings, keys: set<string>, k: string)
    requires keys <= m.Keys && k in keys
    ensures SumLengths(m, keys) == |m[k]| + SumLengths(m, keys - {k})
    decreases keys
  {
    var j :| j in keys && SumLengths(m, keys) == |m[j]| + SumLengths(m, keys - {j});
    if j != k {
      SumLengthsRemove(m, keys - {j}, k);
      SumLengthsRemove(m, keys - {k}, j);
      assert keys - {j} - {k} == keys - {k} - {j};
    }
  }

  /** The sum depends only on the lists under the summed keys. */
  lemma {:induction false} SumLengthsFrame(m: FileFindings, m': FileFindings, keys: set<string>)
    requires keys <= m.Keys && keys <= m'.Keys
    requires forall k :: k in keys ==> m[k] == m'[k]
    ensures SumLengths(m, keys) == SumLengths(m', keys)
    decreases keys
  {
    if keys != {} {
      var k :| k in keys && SumLengths(m, keys) == |m[k]| + SumLengths(m, keys - {k});
      SumLengthsRemove(m', keys, k);
      SumLengthsFrame(m, m', keys - {k});
    }
  }

  /** Replacing one file's list changes the total by the difference in length. */
  lemma TotalFindingsUpdate(m: FileFindings, p: string, v: seq<Finding>)
    ensures TotalFindings(m[p := v]) + (if p in m then |m[p]| else 0) == TotalFindings(m) + |v|
  {
    var m' := m[p := v];
    SumLengthsRemove(m', m'.Keys, p);
    SumLengthsFrame(m, m', m.Keys - {p});
    assert m'.Keys - {p} == m.Keys - {p};
    if p in m {
      SumLengthsRemove(m, m.Keys, p);
    } else {
      assert m.Keys - {p} == m.Keys;
    }
  }

  /** The total is zero exactly when every file's list is empty. */
  lemma {:induction false} TotalFindingsZero(m: FileFindings)
    ensures TotalFindings(m) == 0 <==> forall k :: k in m ==> m[k] == []
  {
    if TotalFindings(m) == 0 {
      forall k | k in m ensures m[k] == [] {
        SumLengthsRemove(m, m.Keys, k);
      }
    } else {
      SumLengthsNonZero(m, m.Keys);
    }
  }

  lemma {:induction false} SumLengthsNonZero(m: FileFindings, keys: set<string>)
    requires keys <= m.Keys && SumLengths(m, keys) != 0
    ensures exists k :: k in keys && m[k] != []
    decreases keys
  {
    var k :| k in keys && SumLengths(m, keys) == |m[k]| + SumLengths(m, keys - {k});
    if m[k] == [] {
      SumLengthsNonZero(m, keys - {k});
    }
  }

  /** Appending one line extends each list by that line's contribution. */
  lemma FindingsForSnoc(done: seq<Entry>, e: Entry, excluded: string -> bool, reserved: set<string>)
    ensures forall k ::
      FindingsFor(done + [e], excluded, reserved, k)
        == FindingsFor(done, excluded, reserved, k)
           + (if Kept(e, excluded, reserved) && e.path == k then [e.finding] else [])
    ensures KeptCount(done + [e], excluded, reserved)
      == KeptCount(done, excluded, reserved) + (if Kept(e, excluded, reserved) then 1 else 0)
  {
    assert (done + [e])[..|done|] == done;
  }

  /** The paths named by the lines, kept or not. */
  function Paths(entries: seq<Entry>): set<string> {
    set j | 0 <= j < |entries| :: entries[j].path
  }

  /**
   * What `parseReport` returns: every path with at least one recorded finding,
   * mapped to its findings in report order.
   */
  function FindingsMap(entries: seq<Entry>, excluded: string -> bool, reserved: set<string>): FileFindings {
    map k | k in Paths(entries) && FindingsFor(entries, excluded, reserved, k) != []
      :: FindingsFor(entries, excluded, reserved, k)
  }

  /** No lines, no findings. */
  lemma FindingsMapEmpty(excluded: string -> bool, reserved: set<string>)
    ensures FindingsMap([], excluded, reserved) == map[]
  {
    assert Paths([]) == {};
  }

  /** A path has findings exactly when some line names it and is kept. */
  lemma {:induction false} FindingsForNonEmpty(entries: seq<Entry>, excluded: string -> bool, reserved: set<string>, k: string)
    ensures FindingsFor(entries, excluded, reserved, k) != []
      <==> exists j :: 0 <= j < |entries| && entries[j].path == k && Kept(entries[j], excluded, reserved)
  {
    if entries != [] {
      var front := entries[..|entries| - 1];
      FindingsForNonEmpty(front, excluded, reserved, k);
      assert forall j :: 0 <= j < |front| ==> front[j] == entries[j];
    }
  }

  /** A path with findings is named by a line, is not excluded and is not reserved. */
  lemma FindingsMapKeys(entries: seq<Entry>, excluded: string -> bool, reserved: set<string>, k: string)
    requires k in FindingsMap(entries, excluded, reserved)
    ensures k in Paths(entries) && !excluded(k) && k !in reserved
  {
    FindingsForNonEmpty(entries, excluded, reserved, k);
  }

  /** Every kept line's path is a key of the result. */
  lemma KeptLineRecorded(entries: seq<Entry>, excluded: string -> bool, reserved: set<string>, j: int)
    requires 0 <= j < |entries| && Kept(entries[j], excluded, reserved)
    ensures entries[j].path in FindingsMap(entries, excluded, reserved)
  {
    FindingsForNonEmpty(entries, excluded, reserved, entries[j].path);
  }

  /** A line that is not kept leaves the result exactly as if it were absent. */
  lemma UnkeptLineIrrelevant(a: seq<Entry>, e: Entry, b: seq<Entry>, excluded: string -> bool, reserved: set<string>)
    requires !Kept(e, excluded, reserved)
    ensures FindingsMap(a + [e] + b, excluded, reserved) == FindingsMap(a + b, excluded, reserved)
  {
    var m1 := FindingsMap(a + [e] + b, excluded, reserved);
    var m2 := FindingsMap(a + b, excluded, reserved);
    forall k
      ensures FindingsFor(a + [e] + b, excluded, reserved, k) == FindingsFor(a + b, excluded, reserved, k)
    {
      FindingsForAppend(a + [e], b, excluded, reserved, k);
      FindingsForAppend(a, [e], excluded, reserved, k);
      FindingsForAppend(a, b, excluded, reserved, k);
      assert [e][..0] == [];
    }
    forall k | k in m1 ensures k in m2 {
      FindingsForNonEmpty(a + b, excluded, reserved, k);
    }
    forall k | k in m2 ensures k in m1 {
      FindingsForNonEmpty(a + [e] + b, excluded, reserved, k);
    }
    assert m1.Keys == m2.Keys;
  }

  /** The lines of two consecutive pieces of a report contribute in order. */
  lemma {:induction false} FindingsForAppend(a: seq<Entry>, b: seq<Entry>, excluded: string -> bool, reserved: set<string>, k: string)
    ensures FindingsFor(a + b, excluded, reserved, k)
      == FindingsFor(a, excluded, reserved, k) + FindingsFor(b, excluded, reserved, k)
    decreases |b|
  {
    if b == [] {
      assert a + b == a;
    } else {
      var front := b[..|b| - 1];
      FindingsForAppend(a, front, excluded, reserved, k);
      assert (a + b)[..|a + b| - 1] == a + front;
      assert (a + b)[|a + b| - 1] == b[|b| - 1];
    }
  }

  /** A kept line's finding is among the findings of its path. */
  lemma FindingsForContains(entries: seq<Entry>, excluded: string -> bool, reserved: set<string>, j: int)
    requires 0 <= j < |entries| && Kept(entries[j], excluded, reserved)
    ensures entries[j].finding in FindingsFor(entries, excluded, reserved, entries[j].path)
  {
    var e := entries[j];
    var front := entries[..j + 1];
    assert entries == front + entries[j + 1..];
    FindingsForAppend(front, entries[j + 1..], excluded, reserved, e.path);
    assert front[..|front| - 1] == entries[..j];
  }

  /** Taking apart two pieces of a report gives the entries of each, in order. */
  lemma EntriesAppend(a: seq<string>, b: seq<string>, decompose: string -> Entry)
    ensures Entries(a + b, decompose) == Entries(a, decompose) + Entries(b, decompose)
  {
  }

  /** The total number of recorded findings never exceeds the number of lines. */
  lemma {:induction false} KeptCountBound(entries: seq<Entry>, excluded: string -> bool, reserved: set<string>)
    ensures KeptCount(entries, excluded, reserved) <= |entries|
  {
    if entries != [] {
      KeptCountBound(entries[..|entries| - 1], excluded, reserved);
    }
  }

  /** The result for a single kept or unkept line. */
  lemma SingleEntry(e: Entry, excluded: string -> bool, reserved: set<string>)
    ensures FindingsMap([e], excluded, reserved)
      == if Kept(e, excluded, reserved) then map[e.path := [e.finding]] else map[]
  {
    assert [e][..0] == [];
    assert [e][0] == e;
    assert Paths([e]) == {e.path};
    var m := FindingsMap([e], excluded, reserved);
    assert FindingsFor([e], excluded, reserved, e.path) == if Kept(e, excluded, reserved) then [e.finding] else [];
    if Kept(e, excluded, reserved) {
      assert m.Keys == {e.path};
    } else {
      assert m.Keys == {};
    }
  }

  /** A map that agrees with `FindingsFor` on keys and values is `FindingsMap`. */
  lemma FindingsMapUnique(r: FileFindings, entries: seq<Entry>, excluded: string -> bool, reserved: set<string>)
    requires forall k :: k in r <==> FindingsFor(entries, excluded, reserved, k) != []
    requires forall k :: k in r ==> r[k] == FindingsFor(entries, excluded, reserved, k)
    ensures r == FindingsMap(entries, excluded, reserved)
  {
    var m := FindingsMap(entries, excluded, reserved);
    forall k | k in r ensures k in m {
      FindingsForNonEmpty(entries, excluded, reserved, k);
    }
    assert r.Keys == m.Keys;
  }

  /** `r` holds exactly what the lines `done` record: the paths with a kept line, each with its findings. */
  ghost predicate Collected(r: FileFindings, done: seq<Entry>, excluded: string -> bool, reserved: set<string>) {
    && (forall k :: k in r <==> FindingsFor(done, excluded, reserved, k) != [])
    && (forall k :: k in r ==> r[k] == FindingsFor(done, excluded, reserved, k))
  }

  /** The map after one more line: unchanged when the line is not kept, its finding appended to its path's list otherwise. */
  function Recorded(r: FileFindings, e: Entry, excluded: string -> bool, reserved: set<string>): FileFindings {
    if Kept(e, excluded, reserved) then r[e.path := (if e.path in r then r[e.path] else []) + [e.finding]] else r
  }

  /** Creating the list when the path is first met and then appending is `Recorded` for a kept line. */
  lemma PushRecorded(r: FileFindings, e: Entry, excluded: string -> bool, reserved: set<string>)
    requires Kept(e, excluded, reserved)
    ensures var created := if e.path !in r then r[e.path := []] else r;
      created[e.path := created[e.path] + [e.finding]] == Recorded(r, e, excluded, reserved)
  {
  }

  /** Recording one more line keeps the map in step with the lines read so far. */
  lemma CollectedSnoc(r: FileFindings, done: seq<Entry>, e: Entry, excluded: string -> bool, reserved: set<string>)
    requires Collected(r, done, excluded, reserved)
    ensures Collected(Recorded(r, e, excluded, reserved), done + [e], excluded, reserved)
  {
    FindingsForSnoc(done, e, excluded, reserved);
  }

  /** `CollectedSnoc` for the line at index `i` of `entries`. */
  lemma CollectedNext(r: FileFindings, entries: seq<Entry>, i: nat, excluded: string -> bool, reserved: set<string>)
    requires i < |entries| && Collected(r, entries[..i], excluded, reserved)
    ensures Collected(Recorded(r, entries[i], excluded, reserved), entries[..i + 1], excluded, reserved)
  {
    assert entries[..i + 1] == entries[..i] + [entries[i]];
    CollectedSnoc(r, entries[..i], entries[i], excluded, reserved);
  }

  /** `FindingsMap` holds what its lines record. */
  lemma FindingsMapCollected(entries: seq<Entry>, excluded: string -> bool, reserved: set<string>)
    ensures Collected(FindingsMap(entries, excluded, reserved), entries, excluded, reserved)
  {
    forall k | FindingsFor(entries, excluded, reserved, k) != [] ensures k in Paths(entries) {
      FindingsForNonEmpty(entries, excluded, reserved, k);
    }
  }

  /** One more line changes the result exactly as `Recorded` says. */
  lemma FindingsMapSnoc(done: seq<Entry>, e: Entry, excluded: string -> bool, reserved: set<string>)
    ensures FindingsMap(done + [e], excluded, reserved) == Recorded(FindingsMap(done, excluded, reserved), e, excluded, reserved)
  {
    var m := FindingsMap(done, excluded, reserved);
    FindingsMapCollected(done, excluded, reserved);
    CollectedSnoc(m, done, e, excluded, reserved);
    FindingsMapUnique(Recorded(m, e, excluded, reserved), done + [e], excluded, reserved);
  }

  /** The findings of the result add up to the number of kept lines. */
  lemma {:induction false} FindingsMapTotal(entries: seq<Entry>, excluded: string -> bool, reserved: set<string>)
    ensures TotalFindings(FindingsMap(entries, excluded, reserved)) == KeptCount(entries, excluded, reserved)
  {
    if entries == [] {
      FindingsMapEmpty(excluded, reserved);
    } else {
      var front := entries[..|entries| - 1];
      var e := entries[|entries| - 1];
      assert entries == front + [e];
      var m := FindingsMap(front, excluded, reserved);
      FindingsMapTotal(front, excluded, reserved);
      FindingsMapSnoc(front, e, excluded, reserved);
      FindingsForSnoc(front, e, excluded, reserved);
      if Kept(e, excluded, reserved) {
        TotalFindingsUpdate(m, e.path, (if e.path in m then m[e.path] else []) + [e.finding]);
      }
    }
  }

  /**
   * The loop of `parseReport`: every line is taken apart; a kept line's finding
   * is appended to its path's list, and the list is created when the path is
   * first met. The result holds exactly the paths with a kept line, each with
   * the findings of its kept lines in report order. The revisions pass
   * `DecomposeLine` as `decompose`; the loop does not depend on how lines are
   * taken apart.
   */
  method CollectFindings(lines: seq<string>, decompose: string -> Entry, excluded: string -> bool, reserved: set<string>)
    returns (r: FileFindings)
    ensures r == FindingsMap(Entries(lines, decompose), excluded, reserved)
    ensures TotalFindings(r) == KeptCount(Entries(lines, decompose), excluded, reserved)
  {
    ghost var entries := Entries(lines, decompose);
    r := map[];
    var i := 0;
    while i < |lines|
      invariant 0 <= i <= |lines|
      invariant Collected(r, entries[..i], excluded, reserved)
    {
      var e := decompose(lines[i]);
      CollectedNext(r, entries, i, excluded, reserved);
      ghost var before := r;
      if excluded(e.path) {
        // `continue`: a test file or an ignored file
      } else if e.path in reserved {
        // `fileErrors[path]` is inherited, so no list is created and `push` throws
      } else {
        if e.path !in r {
          r := r[e.path := []];
        }
        r := r[e.path := r[e.path] + [e.finding]];
        PushRecorded(before, e, excluded, reserved);
      }
      assert r == Recorded(before, e, excluded, reserved);
      i := i + 1;
    }
    assert entries[..i] == entries;
    FindingsMapUnique(r, entries, excluded, reserved);
    FindingsMapTotal(entries, excluded, reserved);
  }
}
