/**
 SQL pattern matching as the repositories use it.

 PostgreSQL reads a `LIKE` pattern with three special characters: `%` stands for any string, `_` for
 any one character, and a backslash takes the next character literally (it is the default escape
 character, and the one named in every `ESCAPE` clause of the repositories).  `ILIKE` compares
 characters after case folding; `fold` is that folding, and `Same` is the one of plain `LIKE`.
 */
module Like {
  import Sequences

  predicate IsMeta(c: char) {
    c == '%' || c == '_' || c == '\\'
  }

  predicate Plain(s: string) {
    forall i :: 0 <= i < |s| ==> !IsMeta(s[i])
  }

  function Same(c: char): char { c }

  predicate Matches(fold: char -> char, p: string, s: string)
    decreases |p|
  {
    if p == "" then
      s == ""
    else if p[0] == '%' then
      exists k :: 0 <= k <= |s| && Matches(fold, p[1..], s[k..])
    else if s == "" then
      false
    else if p[0] == '_' then
      Matches(fold, p[1..], s[1..])
    else if p[0] == '\\' then
      |p| >= 2 && fold(p[1]) == fold(s[0]) && Matches(fold, p[2..], s[1..])
    else
      fold(p[0]) == fold(s[0]) && Matches(fold, p[1..], s[1..])
  }

  // ---------------------------------------------------------------------------------------------
  // Escaping user input
  // ---------------------------------------------------------------------------------------------

  /** Python's `s.replace(c, r)` for a one-character `c`. */
  function Replace(s: string, c: char, r: string): (t: string)
  {
    if s == "" then "" else (if s[0] == c then r else [s[0]]) + Replace(s[1..], c, r)
  }

  /** The chain of three replaces, in the order the code applies them. */
  function Escape(q: string): string {
    Replace(Replace(Replace(q, '\\', "\\\\"), '%', "\\%"), '_', "\\_")
  }

  /** One pass: every special character gets a backslash, nothing else changes. */
  function EscapeEach(q: string): string {
    if q == "" then "" else (if IsMeta(q[0]) then ['\\', q[0]] else [q[0]]) + EscapeEach(q[1..])
  }

  lemma {:induction false} ReplaceConcat(a: string, b: string, c: char, r: string)
    ensures Replace(a + b, c, r) == Replace(a, c, r) + Replace(b, c, r)
  {
    if a == "" {
      assert a + b == b;
    } else {
      ReplaceConcat(a[1..], b, c, r);
      Sequences.HeadOfConcat(a, b);
      Sequences.Assoc(if a[0] == c then r else [a[0]], Replace(a[1..], c, r), Replace(b, c, r));
    }
  }

  lemma {:induction false} EscapeIsPerCharacter(q: string)
    ensures Escape(q) == EscapeEach(q)
  {
    if q == "" {
    } else {
      var h, t := q[..1], q[1..];
      assert q == h + t;
      EscapeIsPerCharacter(t);
      var one := Replace(h, '\\', "\\\\");
      ReplaceConcat(h, t, '\\', "\\\\");
      ReplaceConcat(one, Replace(t, '\\', "\\\\"), '%', "\\%");
      var two := Replace(one, '%', "\\%");
      ReplaceConcat(two, Replace(Replace(t, '\\', "\\\\"), '%', "\\%"), '_', "\\_");
      assert Escape(q) == Replace(two, '_', "\\_") + Escape(t);
      EscapeOne(q[0]);
      assert h == [q[0]];
    }
  }

  lemma EscapeOne(c: char)
    ensures Escape([c]) == EscapeEach([c])
  {
    assert [c][1..] == "";
    if c == '\\' {
      assert Replace([c], '\\', "\\\\") == "\\\\";
    } else {
      assert Replace([c], '\\', "\\\\") == [c];
      if c == '%' {
        assert Replace([c], '%', "\\%") == "\\%";
      } else {
        assert Replace([c], '%', "\\%") == [c];
      }
    }
    assert "\\\\"[1..] == "\\" && "\\"[1..] == "" && "\\%"[1..] == "%" && "%"[1..] == "";
  }

  // ---------------------------------------------------------------------------------------------
  // What escaped patterns match
  // ---------------------------------------------------------------------------------------------

  /** Equal up to case folding. */
  predicate FoldEq(fold: char -> char, a: string, b: string) {
    |a| == |b| && forall i :: 0 <= i < |a| ==> fold(a[i]) == fold(b[i])
  }

  predicate HasPrefix(fold: char -> char, q: string, s: string) {
    |q| <= |s| && FoldEq(fold, q, s[..|q|])
  }

  predicate HasSubstring(fold: char -> char, q: string, s: string) {
    exists k :: 0 <= k <= |s| && HasPrefix(fold, q, s[k..])
  }

  lemma PercentMatchesAll(fold: char -> char, s: string)
    ensures Matches(fold, "%", s)
  {
    assert "%"[1..] == "" && s[|s|..] == "";
  }

  lemma {:induction false} EscapedMatchesItself(fold: char -> char, q: string, rest: string, s: string)
    ensures Matches(fold, EscapeEach(q) + rest, s) <==>
            HasPrefix(fold, q, s) && Matches(fold, rest, s[|q|..])
  {
    var p := EscapeEach(q) + rest;
    if q == "" {
      assert p == rest && s[0..] == s;
    } else if s != "" {
      EscapedMatchesItself(fold, q[1..], rest, s[1..]);
      var tail := EscapeEach(q[1..]) + rest;
      if |q| <= |s| { assert s[1..][|q| - 1..] == s[|q|..]; }
      if IsMeta(q[0]) {
        assert p[0] == '\\' && p[1] == q[0] && p[2..] == tail;
      } else {
        assert p[0] == q[0] && p[1..] == tail;
      }
      assert HasPrefix(fold, q, s) <==> fold(q[0]) == fold(s[0]) && HasPrefix(fold, q[1..], s[1..]) by {
        if fold(q[0]) == fold(s[0]) && HasPrefix(fold, q[1..], s[1..]) {
          forall i | 0 <= i < |q| ensures fold(q[i]) == fold(s[..|q|][i]) {
            if i > 0 { assert q[i] == q[1..][i - 1] && s[i] == s[1..][..|q| - 1][i - 1]; }
          }
        }
      }
    }
  }

  /** The user search: `esc(q) || '%'` finds exactly the names that start with q. */
  lemma EscapedPrefixSearch(fold: char -> char, q: string, s: string)
    ensures Matches(fold, Escape(q) + "%", s) <==> HasPrefix(fold, q, s)
  {
    EscapeIsPerCharacter(q);
    EscapedMatchesItself(fold, q, "%", s);
    if |q| <= |s| { PercentMatchesAll(fold, s[|q|..]); }
  }

  /** The title search: `'%' || esc(q) || '%'` finds exactly the titles that contain q. */
  lemma EscapedSubstringSearch(fold: char -> char, q: string, s: string)
    ensures Matches(fold, "%" + Escape(q) + "%", s) <==> HasSubstring(fold, q, s)
  {
    var p := "%" + Escape(q) + "%";
    assert p[1..] == Escape(q) + "%";
    forall k | 0 <= k <= |s|
      ensures Matches(fold, p[1..], s[k..]) <==> HasPrefix(fold, q, s[k..])
    {
      EscapedPrefixSearch(fold, q, s[k..]);
    }
  }

  // ---------------------------------------------------------------------------------------------
  // What unescaped prefix patterns match
  // ---------------------------------------------------------------------------------------------

  /** s starts with p, where every `_` of p stands for any character. */
  predicate LooksLike(p: string, s: string) {
    |p| <= |s| && forall i :: 0 <= i < |p| ==> p[i] == '_' || p[i] == s[i]
  }

  /** Without `%` and backslash, an unescaped prefix pattern is a positional comparison. */
  lemma {:induction false} UnderscorePrefix(p: string, s: string)
    requires '%' !in p && '\\' !in p
    ensures Matches(Same, p + "%", s) <==> LooksLike(p, s)
  {
    if p == "" {
      assert p + "%" == "%";
      PercentMatchesAll(Same, s);
    } else if s != "" {
      UnderscorePrefix(p[1..], s[1..]);
      assert (p + "%")[1..] == p[1..] + "%";
      if LooksLike(p, s) {
        assert p[0] == '_' || p[0] == s[0];
        forall i | 0 <= i < |p| - 1 ensures p[1..][i] == '_' || p[1..][i] == s[1..][i] {
          assert p[i + 1] == '_' || p[i + 1] == s[i + 1];
        }
      } else if LooksLike(p[1..], s[1..]) && (p[0] == '_' || p[0] == s[0]) {
        forall i | 0 <= i < |p| ensures p[i] == '_' || p[i] == s[i] {
          if i > 0 { assert p[1..][i - 1] == '_' || p[1..][i - 1] == s[1..][i - 1]; }
        }
      }
    }
  }

  /** A string that the pattern `p || '%'` matches: wildcards become the least they can be. */
  ghost function Sample(p: string): (s: string)
    ensures |s| <= |p|
  {
    if p == "" then ""
    else if p[0] == '%' then Sample(p[1..])
    else if p[0] == '_' then "x" + Sample(p[1..])
    else if p[0] == '\\' then
      if |p| == 1 then "%" else [p[1]] + Sample(p[2..])
    else [p[0]] + Sample(p[1..])
  }

  lemma {:induction false} SampleMatches(p: string)
    ensures Matches(Same, p + "%", Sample(p))
  {
    var s := Sample(p);
    if p == "" {
      assert p + "%" == "%";
      PercentMatchesAll(Same, s);
    } else {
      assert (p + "%")[1..] == p[1..] + "%";
      if p == "\\" {
        assert (p + "%")[2..] == "" && s[1..] == "";
      } else if p[0] == '\\' {
        SampleMatches(p[2..]);
        assert (p + "%")[2..] == p[2..] + "%" && s[1..] == Sample(p[2..]);
      } else {
        SampleMatches(p[1..]);
        if p[0] == '%' { assert s[0..] == s; } else { assert s[1..] == Sample(p[1..]); }
      }
    }
  }

  /** Whether the unescaped pattern `p || '%'` means "starts with p". */
  ghost predicate PrefixPatternExact(p: string) {
    forall s: string :: Matches(Same, p + "%", s) <==> p <= s
  }

  lemma {:induction false} PlainPrefixStep(a: string, rest: string, t: string)
    requires Plain(a)
    ensures Matches(Same, a + rest, a + t) == Matches(Same, rest, t)
  {
    if a == "" {
      assert a + rest == rest && a + t == t;
    } else {
      PlainPrefixStep(a[1..], rest, t);
      assert (a + rest)[1..] == a[1..] + rest && (a + t)[1..] == a[1..] + t;
    }
  }

  /** An unescaped prefix pattern means what it says exactly when it has no special character. */
  lemma PrefixPatternExactIffPlain(p: string)
    ensures PrefixPatternExact(p) <==> Plain(p)
  {
    if Plain(p) {
      forall s: string ensures Matches(Same, p + "%", s) <==> p <= s {
        assert '%' !in p && '\\' !in p;
        UnderscorePrefix(p, s);
        if LooksLike(p, s) {
          forall i | 0 <= i < |p| ensures p[i] == s[i] { assert !IsMeta(p[i]); }
        }
      }
    } else {
      var s := MisreadWitness(p);
      assert Matches(Same, p + "%", s) && !(p <= s);
    }
  }

  lemma MisreadWitness(p: string) returns (s: string)
    requires !Plain(p)
    ensures Matches(Same, p + "%", s) && !(p <= s)
  {
    var i := FirstMeta(p);
    var a, b := p[..i], p[i + 1..];
    assert p == a + [p[i]] + b;
    if p[i] == '\\' {
      s := a + Sample(p[i..]);
      SampleMatches(p[i..]);
      assert p + "%" == a + (p[i..] + "%");
      PlainPrefixStep(a, p[i..] + "%", Sample(p[i..]));
      if |b| == 0 {
        assert s[i] == '%';
      } else {
        assert |s| < |p|;
      }
    } else {
      var t := "x" + Sample(b);
      s := a + t;
      SampleMatches(b);
      var rest := [p[i]] + (b + "%");
      assert rest[1..] == b + "%" && t[1..] == Sample(b);
      assert Matches(Same, rest, t);
      assert p + "%" == a + rest;
      PlainPrefixStep(a, rest, t);
      assert s[i] == 'x' && p[i] != 'x';
    }
  }

  lemma FirstMeta(p: string) returns (i: nat)
    requires !Plain(p)
    ensures i < |p| && IsMeta(p[i]) && Plain(p[..i])
  {
    i := 0;
    while !IsMeta(p[i])
      invariant i < |p| && Plain(p[..i])
      invariant exists k :: i <= k < |p| && IsMeta(p[k])
      decreases |p| - i
    {
      assert Plain(p[..i + 1]) by { assert p[..i + 1] == p[..i] + [p[i]]; }
      i := i + 1;
    }
  }
}
