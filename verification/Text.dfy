/** Python's notion of white space. */
module Text {
  import Sequences

  predicate IsSpace(c: char) {
    || '\U{9}' <= c <= '\U{D}' || '\U{1C}' <= c <= '\U{20}'
    || c == '\U{85}' || c == '\U{A0}' || c == '\U{1680}' || '\U{2000}' <= c <= '\U{200A}'
    || c == '\U{2028}' || c == '\U{2029}' || c == '\U{202F}' || c == '\U{205F}' || c == '\U{3000}'
  }

  predicate Blank(s: string) { forall i | 0 <= i < |s| :: IsSpace(s[i]) }

  function StripLeft(s: string): (t: string)
    ensures |t| <= |s| && t == s[|s| - |t|..] && Blank(s[..|s| - |t|])
    ensures t != "" ==> !IsSpace(t[0])
  {
    if s != "" && IsSpace(s[0]) then StripLeft(s[1..]) else s
  }

  function StripRight(s: string): (t: string)
    ensures t <= s && Blank(s[|t|..]) && (t != "" ==> !IsSpace(t[|t| - 1]))
  {
    if s != "" && IsSpace(s[|s| - 1]) then StripRight(s[..|s| - 1]) else s
  }

  function Strip(s: string): string { StripRight(StripLeft(s)) }

  predicate NoEdgeSpace(t: string) { t != "" ==> !IsSpace(t[0]) && !IsSpace(t[|t| - 1]) }

  /** Stripping cuts white space off both ends and leaves none there .. */
  lemma StripCuts(s: string) returns (a: string, b: string)
    ensures s == a + Strip(s) + b && Blank(a) && Blank(b) && NoEdgeSpace(Strip(s))
  {
    a := LeftCut(s);
    b := RightCut(StripLeft(s));
    Cuts(s, a, StripLeft(s), Strip(s), b);
  }

  lemma LeftCut(s: string) returns (a: string)
    ensures s == a + StripLeft(s) && Blank(a) && (StripLeft(s) != "" ==> !IsSpace(StripLeft(s)[0]))
  {
    var n := |s| - |StripLeft(s)|;
    a := s[..n];
    Suffix(s, n);
  }

  lemma RightCut(s: string) returns (b: string)
    ensures s == StripRight(s) + b && Blank(b)
    ensures StripRight(s) != "" ==> !IsSpace(StripRight(s)[|StripRight(s)| - 1])
  {
    var n := |StripRight(s)|;
    b := s[n..];
    Suffix(s, n);
  }

  lemma Cuts(s: string, a: string, l: string, r: string, b: string)
    requires s == a + l && l == r + b && (l != "" ==> !IsSpace(l[0])) && (r != "" ==> !IsSpace(r[|r| - 1]))
    ensures s == a + r + b && NoEdgeSpace(r)
  {
    Sequences.Assoc(a, r, b);
    if r != "" { assert r[0] == l[0]; }
  }

  lemma Suffix(s: string, n: nat)
    requires n <= |s|
    ensures s == s[..n] + s[n..]
  {
  }

  /** .. and no other text is left when that is done. */
  lemma OnlyStrip(s: string, t: string, a: string, b: string)
    requires s == a + t + b && Blank(a) && Blank(b) && NoEdgeSpace(t)
    ensures t == Strip(s)
  {
    var a', b' := StripCuts(s);
    if t != "" {
      SameStrip(a, t, b, a', Strip(s), b');
    } else if Strip(s) != "" {
      SameStrip(a', Strip(s), b', a, t, b);
    }
  }

  /** A text between two blank ones starts and ends where its first and last letter stand. */
  lemma SameStrip(a: string, t: string, b: string, a': string, t': string, b': string)
    requires a + t + b == a' + t' + b' && Blank(a) && Blank(b) && Blank(a') && Blank(b')
    requires t != "" && NoEdgeSpace(t)
    requires NoEdgeSpace(t')
    ensures t == t'
  {
    var s := a + t + b;
    assert s[|a|] == t[0] && s[|a| + |t| - 1] == t[|t| - 1];
    assert forall i | 0 <= i < |a| :: s[i] == a[i];
    assert forall i | |a| + |t| <= i < |s| :: s[i] == b[i - |a| - |t|];
    assert forall i | 0 <= i < |a'| :: s[i] == a'[i];
    assert forall i | |a'| + |t'| <= i < |s| :: s[i] == b'[i - |a'| - |t'|];
    if t' != "" { assert s[|a'|] == t'[0] && s[|a'| + |t'| - 1] == t'[|t'| - 1]; }
    assert |a| == |a'| && |t| == |t'|;
    assert t == s[|a|..|a| + |t|] == t';
  }
}
