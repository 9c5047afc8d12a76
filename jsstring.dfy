/**
 * The few ECMAScript string and array built-ins the extension relies on,
 * stated over `seq<char>`: `split` on a one-character separator and on the
 * regular expression `/\r?\n/`, `join`, `trim`, `startsWith`, `includes`,
 * `Array.prototype.filter`, and `parseInt(s, 10)`.
 */
module JsString {
  import opened Wrappers

  /** WhiteSpace and LineTerminator code points of ECMAScript (what `trim` and `parseInt` skip). */
  predicate IsJsSpace(c: char) {
    || c == '\t' || c == '\U{000B}' || c == '\U{000C}' || c == ' ' || c == '\U{00A0}'
    || c == '\U{1680}' || ('\U{2000}' <= c <= '\U{200A}') || c == '\U{202F}'
    || c == '\U{205F}' || c == '\U{3000}' || c == '\U{FEFF}'
    || IsLineTerminator(c)
  }

  /** The LineTerminator code points: the characters a regular-expression `.` does not match. */
  predicate IsLineTerminator(c: char) {
    c == '\n' || c == '\r' || c == '\U{2028}' || c == '\U{2029}'
  }

  predicate NoLineTerminator(s: string) {
    forall i :: 0 <= i < |s| ==> !IsLineTerminator(s[i])
  }

  predicate StartsWith(s: string, prefix: string) {
    |prefix| <= |s| && s[..|prefix|] == prefix
  }

  predicate EndsWith(s: string, suffix: string) {
    |suffix| <= |s| && s[|s| - |suffix|..] == suffix
  }

  predicate OccursAt(s: string, sub: string, i: int) {
    0 <= i <= |s| - |sub| && s[i..i + |sub|] == sub
  }

  /** `s.includes(sub)` */
  predicate Contains(s: string, sub: string) {
    exists i :: 0 <= i <= |s| - |sub| && OccursAt(s, sub, i)
  }

  /** `s.split(sep)` for a one-character separator: never empty, no part holds `sep`. */
  function Split(s: string, sep: char): (parts: seq<string>)
    ensures |parts| >= 1
    ensures forall i :: 0 <= i < |parts| ==> sep !in parts[i]
    ensures |parts| == 1 ==> parts[0] == s
    decreases |s|
  {
    if |s| == 0 then [""]
    else
      var rest := Split(s[1..], sep);
      if s[0] == sep then [""] + rest
      else [[s[0]] + rest[0]] + rest[1..]
  }

  /** `parts.join(sep)` */
  function Join(parts: seq<string>, sep: char): string
  {
    if |parts| == 0 then ""
    else if |parts| == 1 then parts[0]
    else parts[0] + [sep] + Join(parts[1..], sep)
  }

  /** Joining the parts of a split gives back the string. */
  lemma {:induction false} JoinSplit(s: string, sep: char)
    ensures Join(Split(s, sep), sep) == s
    decreases |s|
  {
    if |s| > 0 {
      var rest := Split(s[1..], sep);
      JoinSplit(s[1..], sep);
      if s[0] == sep {
        assert Split(s, sep) == [""] + rest;
        assert s == [sep] + s[1..];
      } else if |rest| == 1 {
        assert s == [s[0]] + s[1..];
      } else {
        assert Split(s, sep)[1..] == rest[1..];
        assert s == [s[0]] + s[1..];
      }
    }
  }

  /** Splitting a join of separator-free parts gives back the parts. */
  lemma {:induction false} SplitJoin(parts: seq<string>, sep: char)
    requires |parts| >= 1
    requires forall i :: 0 <= i < |parts| ==> sep !in parts[i]
    ensures Split(Join(parts, sep), sep) == parts
    decreases |parts|, |parts[0]|
  {
    var p0 := parts[0];
    if |p0| > 0 {
      var tail := [p0[1..]] + parts[1..];
      assert sep !in p0[1..] by {
        assert forall c :: c in p0[1..] ==> c in p0;
      }
      assert forall i :: 1 <= i < |tail| ==> tail[i] == parts[i];
      SplitJoin(tail, sep);
      JoinConsHead(parts, sep);
      assert p0[0] != sep by { assert p0[0] in p0; }
      SplitCons(p0[0], Join(tail, sep), sep);
      assert [p0[0]] + p0[1..] == p0;
      assert parts == [p0] + tail[1..];
    } else if |parts| > 1 {
      SplitJoin(parts[1..], sep);
      SplitCons(sep, Join(parts[1..], sep), sep);
      assert parts == [""] + parts[1..];
    }
  }

  /** Splitting a string given by its first character. */
  lemma SplitCons(c: char, x: string, sep: char)
    ensures Split([c] + x, sep)
      == if c == sep then [""] + Split(x, sep) else [[c] + Split(x, sep)[0]] + Split(x, sep)[1..]
  {
    assert ([c] + x)[1..] == x;
  }

  /** A join whose first part is not empty starts with that part's first character. */
  lemma JoinConsHead(parts: seq<string>, sep: char)
    requires |parts| >= 1 && |parts[0]| > 0
    ensures Join(parts, sep) == [parts[0][0]] + Join([parts[0][1..]] + parts[1..], sep)
  {
    var p0 := parts[0];
    var tail := [p0[1..]] + parts[1..];
    assert p0 == [p0[0]] + p0[1..];
    if |parts| > 1 {
      assert tail[1..] == parts[1..];
    }
  }

  /** `s.split(/\r?\n/)`: split at each `\n`; a `\r` just before it belongs to the separator. */
  function SplitLinesCrLf(s: string): (lines: seq<string>)
    ensures |lines| == |Split(s, '\n')|
    ensures forall i :: 0 <= i < |lines| ==>
              lines[i] == if i < |lines| - 1 then DropCarriageReturn(Split(s, '\n')[i]) else Split(s, '\n')[i]
  {
    var parts := Split(s, '\n');
    seq(|parts|, i requires 0 <= i < |parts| =>
      if i < |parts| - 1 then DropCarriageReturn(parts[i]) else parts[i])
  }

  function DropCarriageReturn(p: string): string {
    if |p| > 0 && p[|p| - 1] == '\r' then p[..|p| - 1] else p
  }

  /** `xs.filter(keep)`: the elements that pass, in their order. */
  function Filter<T>(xs: seq<T>, keep: T -> bool): (r: seq<T>)
    ensures |r| <= |xs|
    ensures forall i :: 0 <= i < |r| ==> r[i] in xs && keep(r[i])
    ensures forall i :: 0 <= i < |xs| && keep(xs[i]) ==> xs[i] in r
  {
    if xs == [] then []
    else (if keep(xs[0]) then [xs[0]] else []) + Filter(xs[1..], keep)
  }

  /**
   * `ix` lists, in increasing order, exactly the positions of `xs` whose elements
   * pass `keep`, and `r` holds the elements at those positions: `r` is `xs` with
   * the other elements taken out, order and repetitions kept.
   */
  ghost predicate Selects<T>(ix: seq<int>, xs: seq<T>, r: seq<T>, keep: T -> bool) {
    && |ix| == |r|
    && (forall i :: 0 <= i < |ix| ==> 0 <= ix[i] < |xs| && r[i] == xs[ix[i]])
    && (forall i, j :: 0 <= i < j < |ix| ==> ix[i] < ix[j])
    && (forall k :: 0 <= k < |xs| ==> (keep(xs[k]) <==> k in ix))
  }

  /** `filter` keeps the passing elements in their order, each as often as it occurs. */
  lemma {:induction false} FilterSelects<T>(xs: seq<T>, keep: T -> bool)
    ensures exists ix :: Selects(ix, xs, Filter(xs, keep), keep)
    decreases |xs|
  {
    if xs == [] {
      assert Selects([], xs, Filter(xs, keep), keep);
    } else {
      FilterSelects(xs[1..], keep);
      var rest :| Selects(rest, xs[1..], Filter(xs[1..], keep), keep);
      SelectsCons(xs, rest, Filter(xs[1..], keep), keep);
      assert Selects(ConsPositions(keep(xs[0]), rest), xs, Filter(xs, keep), keep);
    }
  }

  /** The positions of `rest`, one further on, after position 0 when the first element is kept. */
  function ConsPositions(first: bool, rest: seq<int>): (ix: seq<int>)
    ensures |ix| == |rest| + Offset(first)
    ensures first ==> ix[0] == 0
    ensures forall i :: Offset(first) <= i < |ix| ==> ix[i] == rest[i - Offset(first)] + 1
  {
    (if first then [0] else []) + seq(|rest|, i requires 0 <= i < |rest| => rest[i] + 1)
  }

  /** How many positions a kept first element takes. */
  function Offset(first: bool): nat {
    if first then 1 else 0
  }

  /** What `Selects` says of the rest of `xs` carries over to `xs`, one position further on. */
  lemma SelectsCons<T>(xs: seq<T>, rest: seq<int>, r: seq<T>, keep: T -> bool)
    requires xs != [] && Selects(rest, xs[1..], r, keep)
    ensures Selects(ConsPositions(keep(xs[0]), rest), xs, (if keep(xs[0]) then [xs[0]] else []) + r, keep)
  {
    ConsValues(xs, rest, r, keep);
    ConsOrdered(keep(xs[0]), rest);
    ConsKept(xs, rest, keep);
  }

  lemma ConsValues<T>(xs: seq<T>, rest: seq<int>, r: seq<T>, keep: T -> bool)
    requires xs != [] && |rest| == |r|
    requires forall i :: 0 <= i < |rest| ==> 0 <= rest[i] < |xs| - 1 && r[i] == xs[1..][rest[i]]
    ensures var ix := ConsPositions(keep(xs[0]), rest); var r' := (if keep(xs[0]) then [xs[0]] else []) + r;
      forall i :: 0 <= i < |ix| ==> 0 <= ix[i] < |xs| && r'[i] == xs[ix[i]]
  {
    var ix := ConsPositions(keep(xs[0]), rest);
    var r' := (if keep(xs[0]) then [xs[0]] else []) + r;
    var d := Offset(keep(xs[0]));
    forall i | 0 <= i < |ix| ensures 0 <= ix[i] < |xs| && r'[i] == xs[ix[i]] {
      if i >= d {
        assert r'[i] == r[i - d];
        assert xs[ix[i]] == xs[1..][rest[i - d]];
      }
    }
  }

  lemma ConsOrdered(first: bool, rest: seq<int>)
    requires forall i :: 0 <= i < |rest| ==> 0 <= rest[i]
    requires forall i, j :: 0 <= i < j < |rest| ==> rest[i] < rest[j]
    ensures var ix := ConsPositions(first, rest);
      forall i, j :: 0 <= i < j < |ix| ==> ix[i] < ix[j]
  {
    var ix := ConsPositions(first, rest);
    var d := Offset(first);
    forall i, j | 0 <= i < j < |ix| ensures ix[i] < ix[j] {
      var b := rest[j - d];
      if i >= d {
        var a := rest[i - d];
      }
    }
  }

  lemma ConsKept<T>(xs: seq<T>, rest: seq<int>, keep: T -> bool)
    requires xs != []
    requires forall i :: 0 <= i < |rest| ==> 0 <= rest[i]
    requires forall k :: 0 <= k < |xs| - 1 ==> (keep(xs[1..][k]) <==> k in rest)
    ensures var ix := ConsPositions(keep(xs[0]), rest);
      forall k :: 0 <= k < |xs| ==> (keep(xs[k]) <==> k in ix)
  {
    var ix := ConsPositions(keep(xs[0]), rest);
    var d := Offset(keep(xs[0]));
    forall k | 0 < k < |xs| ensures keep(xs[k]) <==> k in ix {
      assert xs[k] == xs[1..][k - 1];
      if k - 1 in rest {
        var i :| 0 <= i < |rest| && rest[i] == k - 1;
        assert ix[i + d] == k;
      }
      if k in ix {
        var i :| 0 <= i < |ix| && ix[i] == k;
        if i >= d {
          assert rest[i - d] == k - 1;
        }
      }
    }
    if !keep(xs[0]) {
      forall i | 0 <= i < |ix| ensures ix[i] != 0 {
        assert ix[i] == rest[i] + 1;
      }
    }
  }

  /** Filtering two pieces gives the filtered pieces, in order. */
  lemma {:induction false} FilterAppend<T>(a: seq<T>, b: seq<T>, keep: T -> bool)
    ensures Filter(a + b, keep) == Filter(a, keep) + Filter(b, keep)
  {
    if a != [] {
      assert (a + b)[1..] == a[1..] + b;
      FilterAppend(a[1..], b, keep);
    } else {
      assert a + b == b;
    }
  }

  /** A filter that keeps every element changes nothing. */
  lemma {:induction false} FilterKeepsAll<T>(xs: seq<T>, keep: T -> bool)
    requires forall i :: 0 <= i < |xs| ==> keep(xs[i])
    ensures Filter(xs, keep) == xs
  {
    if xs != [] {
      FilterKeepsAll(xs[1..], keep);
    }
  }

  /** Splitting at `/\r?\n/` a join of lines free of `\n` and of a final `\r` gives back the lines. */
  lemma SplitLinesJoin(lines: seq<string>)
    requires |lines| >= 1
    requires forall i :: 0 <= i < |lines| ==> '\n' !in lines[i] && DropCarriageReturn(lines[i]) == lines[i]
    ensures SplitLinesCrLf(Join(lines, '\n')) == lines
  {
    SplitJoin(lines, '\n');
  }

  /** `s.trimStart()`: the suffix that remains after the leading white space. */
  function TrimStart(s: string): (r: string)
    ensures |r| <= |s| && r == s[|s| - |r|..]
    ensures forall i :: 0 <= i < |s| - |r| ==> IsJsSpace(s[i])
    ensures r != [] ==> !IsJsSpace(r[0])
  {
    if |s| > 0 && IsJsSpace(s[0]) then TrimStart(s[1..]) else s
  }

  /** `s.trimEnd()`: the prefix that remains before the trailing white space. */
  function TrimEnd(s: string): (r: string)
    ensures |r| <= |s| && r == s[..|r|]
    ensures forall i :: |r| <= i < |s| ==> IsJsSpace(s[i])
    ensures r != [] ==> !IsJsSpace(r[|r| - 1])
  {
    if |s| > 0 && IsJsSpace(s[|s| - 1]) then TrimEnd(s[..|s| - 1]) else s
  }

  /** Text that neither starts nor ends with white space is its own trim. */
  lemma TrimUnchanged(s: string)
    requires s == [] || (!IsJsSpace(s[0]) && !IsJsSpace(s[|s| - 1]))
    ensures Trim(s) == s
  {
    assert TrimStart(s) == s;
    assert TrimEnd(s) == s;
  }

  /** `s.trim()`: a contiguous middle piece of `s`, white space only on either side of it. */
  function Trim(s: string): (r: string)
    ensures exists i :: TrimmedAt(s, r, i)
    ensures r != [] ==> !IsJsSpace(r[0]) && !IsJsSpace(r[|r| - 1])
  {
    TrimmedAtStart(s);
    TrimEnd(TrimStart(s))
  }

  /** What `trimStart` and then `trimEnd` leave is found in `s` where the leading white space ends. */
  lemma TrimmedAtStart(s: string)
    ensures TrimmedAt(s, TrimEnd(TrimStart(s)), |s| - |TrimStart(s)|)
  {
    TrimmedOf(s, TrimStart(s), TrimEnd(TrimStart(s)));
  }

  /** A prefix `r` of a suffix `t` of `s`, with only white space cut off on either side, is trimmed out of `s`. */
  lemma TrimmedOf(s: string, t: string, r: string)
    requires |t| <= |s| && t == s[|s| - |t|..]
    requires forall k :: 0 <= k < |s| - |t| ==> IsJsSpace(s[k])
    requires |r| <= |t| && r == t[..|r|]
    requires forall k :: |r| <= k < |t| ==> IsJsSpace(t[k])
    ensures TrimmedAt(s, r, |s| - |t|)
  {
    var i := |s| - |t|;
    assert OccursAt(s, r, i);
    forall k | i + |r| <= k < |s|
      ensures IsJsSpace(s[k])
    {
      assert s[k] == t[k - i];
    }
  }

  /** Trimming twice is trimming once. */
  lemma TrimIdempotent(s: string)
    ensures Trim(Trim(s)) == Trim(s)
  {
    TrimUnchanged(Trim(s));
  }

  /** `r` occurs in `s` at `i`, with only white space before and after it. */
  predicate TrimmedAt(s: string, r: string, i: int) {
    && OccursAt(s, r, i)
    && (forall k :: 0 <= k < i ==> IsJsSpace(s[k]))
    && (forall k :: i + |r| <= k < |s| ==> IsJsSpace(s[k]))
  }

  predicate IsDigit(c: char) {
    '0' <= c <= '9'
  }

  function DigitValue(c: char): nat
    requires IsDigit(c)
  {
    (c as int) - ('0' as int)
  }

  /** The longest prefix of decimal digits. */
  function LeadingDigits(s: string): (d: string)
    ensures |d| <= |s| && d == s[..|d|]
    ensures forall i :: 0 <= i < |d| ==> IsDigit(d[i])
    ensures |d| < |s| ==> !IsDigit(s[|d|])
  {
    if |s| > 0 && IsDigit(s[0]) then [s[0]] + LeadingDigits(s[1..]) else ""
  }

  /** The value of a string of decimal digits. */
  function DecimalValue(d: string): nat
    requires forall i :: 0 <= i < |d| ==> IsDigit(d[i])
  {
    if d == [] then 0 else 10 * DecimalValue(d[..|d| - 1]) + DigitValue(d[|d| - 1])
  }

  /**
   * `parseInt(s, 10)`: skip leading white space, take an optional sign and the
   * longest run of decimal digits after it; with no digits the result is NaN (`None`).
   */
  function ParseInt(s: string): Option<int>
  {
    var t := TrimStart(s);
    var signed := |t| > 0 && (t[0] == '-' || t[0] == '+');
    var digits := LeadingDigits(if signed then t[1..] else t);
    if digits == [] then None
    else
      var magnitude: int := DecimalValue(digits);
      Some(if signed && t[0] == '-' then -magnitude else magnitude)
  }

  /** The digit character of a value below ten. */
  function DigitChar(k: nat): (c: char)
    requires k < 10
    ensures IsDigit(c) && DigitValue(c) == k
  {
    ('0' as int + k) as char
  }

  /** The decimal notation of a natural number. */
  function DecimalString(n: nat): (d: string)
    ensures |d| >= 1
    ensures forall i :: 0 <= i < |d| ==> IsDigit(d[i])
  {
    (if n < 10 then "" else DecimalString(n / 10)) + [DigitChar(n % 10)]
  }

  lemma {:induction false} DecimalValueOfString(n: nat)
    ensures DecimalValue(DecimalString(n)) == n
  {
    var front := if n < 10 then "" else DecimalString(n / 10);
    var d := front + [DigitChar(n % 10)];
    assert DecimalString(n) == d;
    assert d[..|d| - 1] == front;
    assert DecimalValue(d) == 10 * DecimalValue(front) + n % 10;
    if n >= 10 {
      DecimalValueOfString(n / 10);
    }
    assert DecimalValue(front) == n / 10;
  }

  lemma {:induction false} LeadingDigitsOfDigits(d: string, rest: string)
    requires forall i :: 0 <= i < |d| ==> IsDigit(d[i])
    requires rest == [] || !IsDigit(rest[0])
    ensures LeadingDigits(d + rest) == d
    decreases |d|
  {
    if d != [] {
      LeadingDigitsOfDigits(d[1..], rest);
      assert (d + rest)[1..] == d[1..] + rest;
    }
  }

  /** `parseInt` reads back the decimal notation of `n` followed by any non-digit text. */
  lemma ParseIntDecimal(n: nat, rest: string)
    requires rest == [] || !IsDigit(rest[0])
    ensures ParseInt(DecimalString(n) + rest) == Some(n)
  {
    var d := DecimalString(n);
    var s := d + rest;
    assert s[0] == d[0];
    assert IsDigit(s[0]);
    assert !IsJsSpace(s[0]);
    assert TrimStart(s) == s;
    assert !(s[0] == '-' || s[0] == '+');
    LeadingDigitsOfDigits(d, rest);
    DecimalValueOfString(n);
  }

  /**
   * Names that a plain object literal `{}` inherits from `Object.prototype`:
   * `obj[k]` is defined (and not an array) for each of them, although no such
   * key was ever assigned.
   */
  const InheritedKeys: set<string> := {
    "constructor", "__proto__", "__defineGetter__", "__defineSetter__",
    "__lookupGetter__", "__lookupSetter__", "hasOwnProperty", "isPrototypeOf",
    "propertyIsEnumerable", "toLocaleString", "toString", "valueOf"
  }

  /** Every inherited member name starts with one of `_chiptv`. */
  lemma NotInherited(k: string)
    requires k != [] && k[0] !in "_chiptv"
    ensures k !in InheritedKeys
  {
  }
}
