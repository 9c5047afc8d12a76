/**
 * The path patterns of a `.gitignore` file, as both revisions of the parser
 * compile them to a JavaScript regular expression: `*` becomes `.*`, which
 * matches any run of characters other than line terminators (`/` included),
 * and every other character matches itself.
 */
module Glob {
  import opened JsString

  /** `s` is matched, from its first to its last character, by the compiled form of `p`. */
  predicate GlobMatch(p: string, s: string)
    decreases |p| + |s|
  {
    if p == [] then s == []
    else if p[0] == '*' then
      GlobMatch(p[1..], s) || (s != [] && !IsLineTerminator(s[0]) && GlobMatch(p, s[1..]))
    else s != [] && s[0] == p[0] && GlobMatch(p[1..], s[1..])
  }

  /** A pattern without `*` matches exactly itself. */
  lemma {:induction false} LiteralMatch(p: string, s: string)
    requires '*' !in p
    ensures GlobMatch(p, s) <==> s == p
    decreases |p|
  {
    if p != [] {
      assert '*' !in p[1..] by { assert forall c :: c in p[1..] ==> c in p; }
      if s != [] {
        LiteralMatch(p[1..], s[1..]);
        if s[0] == p[0] && s[1..] == p[1..] {
          assert s == [s[0]] + s[1..] && p == [p[0]] + p[1..];
        }
      }
    }
  }

  /** `*` alone matches any string free of line terminators, with or without `/`. */
  lemma {:induction false} StarMatch(s: string)
    ensures GlobMatch("*", s) <==> NoLineTerminator(s)
    decreases |s|
  {
    assert GlobMatch("", s) <==> s == [];
    if s != [] {
      StarMatch(s[1..]);
      assert NoLineTerminator(s) <==> !IsLineTerminator(s[0]) && NoLineTerminator(s[1..]) by {
        assert forall i :: 1 <= i < |s| ==> s[i] == s[1..][i - 1];
      }
    }
  }

  /**
   * `*` followed by a literal `q` matches exactly the strings that end in `q`
   * after a line-terminator-free prefix, so `*.log` matches `a.log` and `dir/a.log`.
   */
  lemma {:induction false} StarSuffixMatch(q: string, s: string)
    requires '*' !in q
    ensures GlobMatch(['*'] + q, s) <==> EndsWith(s, q) && NoLineTerminator(s[..|s| - |q|])
    decreases |s|
  {
    var p := ['*'] + q;
    assert p[1..] == q;
    LiteralMatch(q, s);
    if s == [] {
      assert GlobMatch(p, s) <==> s == q;
    } else {
      StarSuffixMatch(q, s[1..]);
      if |s| > |q| {
        assert s[1..][..|s| - 1 - |q|] == s[1..|s| - |q|];
        assert EndsWith(s[1..], q) <==> EndsWith(s, q) by {
          assert s[1..][|s| - 1 - |q|..] == s[|s| - |q|..];
        }
        assert NoLineTerminator(s[..|s| - |q|])
          <==> !IsLineTerminator(s[0]) && NoLineTerminator(s[1..|s| - |q|]) by {
          var pre := s[..|s| - |q|];
          assert forall i :: 1 <= i < |pre| ==> pre[i] == s[1..|s| - |q|][i - 1];
        }
        assert s != q;
      } else if |s| == |q| {
        assert s[..|s| - |q|] == [];
        assert !EndsWith(s[1..], q);
        assert EndsWith(s, q) <==> s == q;
      } else {
        assert !EndsWith(s[1..], q);
        assert s != q;
      }
    }
  }

  /** A pattern ending in a literal character matches a string ending in it, the rest matching the front. */
  lemma {:induction false} LiteralLastMatch(c: string, x: char, s: string)
    requires x != '*'
    ensures GlobMatch(c + [x], s) <==> s != [] && s[|s| - 1] == x && GlobMatch(c, s[..|s| - 1])
    decreases |c| + |s|
  {
    var p := c + [x];
    if c == [] {
      assert p[1..] == [];
      if s != [] {
        assert GlobMatch("", s[1..]) <==> s[1..] == [];
      }
    } else {
      assert p[1..] == c[1..] + [x];
      if c[0] == '*' {
        LiteralLastMatch(c[1..], x, s);
        if s != [] {
          LiteralLastMatch(c, x, s[1..]);
          if |s| > 1 {
            assert s[1..][..|s| - 2] == s[..|s| - 1][1..];
          }
        }
      } else if s != [] {
        LiteralLastMatch(c[1..], x, s[1..]);
        if |s| > 1 {
          assert s[1..][..|s| - 2] == s[..|s| - 1][1..];
        }
      }
    }
  }
}
