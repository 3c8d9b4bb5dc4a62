/**
 Building and parsing `mimir://` URIs.

 The four regular expressions alternate fixed text with groups `([^/]+)`, each group followed by a
 slash or the end.  `Match` reads such a pattern from the left; `MatchIff` says that it finds the one
 decomposition a regular expression engine could find.
 */
module MimirUri {
  import opened Wrappers
  import Text

  datatype Pattern = End | Lit(s: string, next: Pattern) | Seg(next: Pattern)

  const HEAD := "mimir://documents/"

  function DocPattern(): Pattern { Lit(HEAD, Seg(End)) }

  function TwoIds(head: string, mid: string, tail: Pattern): Pattern { Lit(head, Seg(Lit(mid, Seg(tail)))) }

  function VersionPattern(tail: Pattern): Pattern { TwoIds(HEAD, "/versions/", tail) }

  function NodePattern(): Pattern { VersionPattern(Lit("/nodes/", Seg(End))) }

  function RenderPattern(): Pattern { VersionPattern(Lit("/render", End)) }

  /** The longest prefix without a slash. */
  function SegLength(s: string): (n: nat)
    ensures n <= |s| && (forall i | 0 <= i < n :: s[i] != '/') && (n < |s| ==> s[n] == '/')
  {
    if s == "" || s[0] == '/' then 0 else 1 + SegLength(s[1..])
  }

  /** The groups captured by matching the whole of s. */
  function Match(p: Pattern, s: string): Option<seq<string>> {
    match p
    case End => if s == "" then Some([]) else None
    case Lit(l, next) => if l <= s then Match(next, s[|l|..]) else None
    case Seg(next) =>
      var n := SegLength(s);
      if n == 0 then None
      else
        match Match(next, s[n..])
        case None => None
        case Some(gs) => Some([s[..n]] + gs)
  }

  function Segments(p: Pattern): nat {
    match p case End => 0 case Lit(_, next) => Segments(next) case Seg(next) => 1 + Segments(next)
  }

  /** The text a pattern stands for once its groups are filled in. */
  function Print(p: Pattern, gs: seq<string>): string
    requires |gs| == Segments(p)
  {
    match p
    case End => ""
    case Lit(l, next) => l + Print(next, gs)
    case Seg(next) => gs[0] + Print(next, gs[1..])
  }

  predicate IsSegment(g: string) { g != "" && '/' !in g }

  /** Every group is followed by the end or by text that starts with a slash. */
  predicate Separated(p: Pattern) {
    match p
    case End => true
    case Lit(_, next) => Separated(next)
    case Seg(next) => (next.End? || (next.Lit? && next.s != "" && next.s[0] == '/')) && Separated(next)
  }

  lemma SegLengthOf(g: string, rest: string)
    requires IsSegment(g) && (rest == "" || rest[0] == '/')
    ensures SegLength(g + rest) == |g|
  {
    var s := g + rest;
    forall i | 0 <= i < |g| ensures s[i] != '/' { assert s[i] == g[i]; }
    assert rest != "" ==> s[|g|] == '/';
  }

  ghost predicate AllSegments(gs: seq<string>) { forall i | 0 <= i < |gs| :: IsSegment(gs[i]) }

  /** Whatever matches is the pattern printed with the captured groups. */
  lemma {:induction false} MatchSound(p: Pattern, s: string)
    requires Match(p, s).Some?
    ensures var gs := Match(p, s).value; |gs| == Segments(p) && AllSegments(gs) && s == Print(p, gs)
  {
    match p
    case End =>
    case Lit(l, next) =>
      MatchSound(next, s[|l|..]);
      assert s == l + s[|l|..];
    case Seg(next) =>
      var n := SegLength(s);
      MatchSound(next, s[n..]);
      SegSound(next, s[..n], Match(next, s[n..]).value);
      assert s == s[..n] + s[n..];
  }

  lemma SegSound(next: Pattern, g: string, gs: seq<string>)
    requires |gs| == Segments(next) && AllSegments(gs) && IsSegment(g)
    ensures |[g] + gs| == Segments(Seg(next)) && AllSegments([g] + gs)
    ensures Print(Seg(next), [g] + gs) == g + Print(next, gs)
  {
    assert ([g] + gs)[1..] == gs;
  }

  /** A printed pattern matches, with the groups it was printed from. */
  lemma {:induction false} MatchComplete(p: Pattern, gs: seq<string>)
    requires Separated(p) && |gs| == Segments(p) && AllSegments(gs)
    ensures Match(p, Print(p, gs)) == Some(gs)
  {
    var s := Print(p, gs);
    match p
    case End =>
    case Lit(l, next) =>
      MatchComplete(next, gs);
      assert s[|l|..] == Print(next, gs);
    case Seg(next) =>
      var rest := Print(next, gs[1..]);
      MatchComplete(next, gs[1..]);
      assert next.Lit? ==> rest[0] == next.s[0];
      SegLengthOf(gs[0], rest);
      assert s[|gs[0]|..] == rest && s[..|gs[0]|] == gs[0] && gs == [gs[0]] + gs[1..];
  }

  /** Matching succeeds exactly on the printed patterns, and finds their groups. */
  lemma MatchIff(p: Pattern, s: string, gs: seq<string>)
    requires Separated(p)
    ensures Match(p, s) == Some(gs) <==> |gs| == Segments(p) && AllSegments(gs) && s == Print(p, gs)
  {
    if Match(p, s) == Some(gs) { MatchSound(p, s); }
    if |gs| == Segments(p) && AllSegments(gs) && s == Print(p, gs) { MatchComplete(p, gs); }
  }

  // ---------------------------------------------------------------------------------------------
  // Building and parsing
  // ---------------------------------------------------------------------------------------------

  datatype Parts =
    | Document(documentId: string)
    | Version(documentId: string, versionId: string)
    | Node(documentId: string, versionId: string, nodeId: string)
    | Render(documentId: string, versionId: string)

  datatype UriError = EmptyId | LatestNotPinned

  function BuildDocUri(d: string): Result<string, UriError> {
    if d == "" then Err(EmptyId) else Ok(HEAD + d)
  }

  function BuildVersionUri(d: string, v: string): Result<string, UriError> {
    if d == "" then Err(EmptyId)
    else if v == "" then Err(EmptyId)
    else if v == "latest" then Err(LatestNotPinned)
    else Ok(HEAD + d + "/versions/" + v)
  }

  function BuildNodeUri(d: string, v: string, n: string): Result<string, UriError> {
    if n == "" then Err(EmptyId)
    else
      match BuildVersionUri(d, v)
      case Err(e) => Err(e)
      case Ok(base) => Ok(base + "/nodes/" + n)
  }

  function BuildRenderUri(d: string, v: string): Result<string, UriError> {
    match BuildVersionUri(d, v)
    case Err(e) => Err(e)
    case Ok(base) => Ok(base + "/render")
  }

  function Build(p: Parts): Result<string, UriError> {
    match p
    case Document(d) => BuildDocUri(d)
    case Version(d, v) => BuildVersionUri(d, v)
    case Node(d, v, n) => BuildNodeUri(d, v, n)
    case Render(d, v) => BuildRenderUri(d, v)
  }

  function ParseUri(uri: string): Option<Parts> {
    if uri == "" then None else FirstMatch(Text.Strip(uri))
  }

  /** The four patterns, the most specific first. */
  function FirstMatch(s: string): Option<Parts> {
    match Match(NodePattern(), s)
    case Some(g) => if |g| == 3 then Some(Node(g[0], g[1], g[2])) else None
    case None =>
      match Match(RenderPattern(), s)
      case Some(g) => if |g| == 2 then Some(Render(g[0], g[1])) else None
      case None =>
        match Match(VersionPattern(End), s)
        case Some(g) => if |g| == 2 then Some(Version(g[0], g[1])) else None
        case None =>
          match Match(DocPattern(), s)
          case Some(g) => if |g| == 1 then Some(Document(g[0])) else None
          case None => None
  }

  /** The URI of a document, version, node or rendering, as clients see it. */
  function UriText(p: Parts): string {
    match p
    case Document(d) => "mimir://documents/" + d
    case Version(d, v) => "mimir://documents/" + d + "/versions/" + v
    case Node(d, v, n) => "mimir://documents/" + d + "/versions/" + v + "/nodes/" + n
    case Render(d, v) => "mimir://documents/" + d + "/versions/" + v + "/render"
  }

  /** A URI is built exactly when no id is empty and the version is not `latest`; the error says which. */
  lemma BuildIff(p: Parts)
    ensures var empty := exists i :: 0 <= i < |GroupsOf(p)| && GroupsOf(p)[i] == "";
            var latest := !p.Document? && p.versionId == "latest";
            && (Build(p) == Ok(UriText(p)) <==> !empty && !latest)
            && (Build(p) == Err(EmptyId) <==> empty)
            && (Build(p) == Err(LatestNotPinned) <==> latest && !empty)
  {
    var g := GroupsOf(p);
    match p
    case Document(d) => assert g[0] == d;
    case Version(d, v) => assert g[0] == d && g[1] == v;
    case Node(d, v, n) => assert g[0] == d && g[1] == v && g[2] == n;
    case Render(d, v) => assert g[0] == d && g[1] == v;
  }

  function PatternOf(p: Parts): Pattern {
    match p
    case Document(_) => DocPattern()
    case Version(_, _) => VersionPattern(End)
    case Node(_, _, _) => NodePattern()
    case Render(_, _) => RenderPattern()
  }

  function GroupsOf(p: Parts): seq<string> {
    match p
    case Document(d) => [d]
    case Version(d, v) => [d, v]
    case Node(d, v, n) => [d, v, n]
    case Render(d, v) => [d, v]
  }

  lemma PatternFacts(p: Parts)
    ensures Separated(PatternOf(p)) && Segments(PatternOf(p)) == |GroupsOf(p)|
  {
  }

  lemma BuildPrints(p: Parts)
    requires Build(p).Ok?
    ensures Segments(PatternOf(p)) == |GroupsOf(p)| && Build(p).value == Print(PatternOf(p), GroupsOf(p))
  {
    match p
    case Document(d) => PrintLast(HEAD, d);
    case Version(d, v) => VersionPrints(d, v);
    case Node(d, v, n) => NodePrints(d, v, n);
    case Render(d, v) => RenderPrints(d, v);
  }

  lemma VersionPrints(d: string, v: string)
    ensures Segments(VersionPattern(End)) == 2
    ensures Print(VersionPattern(End), [d, v]) == HEAD + d + "/versions/" + v
  {
    PrintTwoIds(HEAD, d, "/versions/", v, End, []);
    assert [d, v] + [] == [d, v];
  }

  lemma NodePrints(d: string, v: string, n: string)
    ensures Segments(NodePattern()) == 3
    ensures Print(NodePattern(), [d, v, n]) == HEAD + d + "/versions/" + v + "/nodes/" + n
  {
    PrintLast("/nodes/", n);
    PrintTwoIds(HEAD, d, "/versions/", v, Lit("/nodes/", Seg(End)), [n]);
    assert [d, v] + [n] == [d, v, n];
    var base := HEAD + d + "/versions/" + v;
    assert base + ("/nodes/" + n) == base + "/nodes/" + n;
  }

  lemma RenderPrints(d: string, v: string)
    ensures Segments(RenderPattern()) == 2
    ensures Print(RenderPattern(), [d, v]) == HEAD + d + "/versions/" + v + "/render"
  {
    PrintTwoIds(HEAD, d, "/versions/", v, Lit("/render", End), []);
    assert [d, v] + [] == [d, v];
    assert Print(Lit("/render", End), []) == "/render" + "";
  }

  lemma PrintLast(lit: string, id: string)
    ensures Segments(Lit(lit, Seg(End))) == 1 && Print(Lit(lit, Seg(End)), [id]) == lit + id
  {
    assert Print(Seg(End), [id]) == id + "";
  }

  lemma PrintTwoIds(head: string, d: string, mid: string, v: string, tail: Pattern, more: seq<string>)
    requires Segments(tail) == |more|
    ensures Segments(TwoIds(head, mid, tail)) == |[d, v] + more|
    ensures Print(TwoIds(head, mid, tail), [d, v] + more) == head + d + mid + v + Print(tail, more)
  {
    var gs := [d, v] + more;
    assert gs[1..] == [v] + more && gs[1..][1..] == more;
    var t := Print(tail, more);
    assert Print(Seg(tail), gs[1..]) == v + t;
    assert Print(Lit(mid, Seg(tail)), gs[1..]) == mid + (v + t);
    assert Print(Seg(Lit(mid, Seg(tail))), gs) == d + (mid + (v + t));
    assert head + (d + (mid + (v + t))) == head + d + mid + v + t;
  }

  // ---------------------------------------------------------------------------------------------
  // The patterns exclude one another
  // ---------------------------------------------------------------------------------------------

  /** What is left of s after a text and an id. */
  function AfterId(lit: string, s: string): Option<string> {
    if lit <= s && SegLength(s[|lit|..]) > 0 then Some(s[|lit|..][SegLength(s[|lit|..])..]) else None
  }

  lemma MatchLitSeg(lit: string, tail: Pattern, s: string)
    ensures Match(Lit(lit, Seg(tail)), s).Some? <==>
            AfterId(lit, s).Some? && Match(tail, AfterId(lit, s).value).Some?
  {
  }

  /** All patterns with a version go through the same text; what follows the version id decides. */
  lemma MatchTwoIds(head: string, mid: string, tail: Pattern, s: string)
    ensures Match(TwoIds(head, mid, tail), s).Some? <==>
            && AfterId(head, s).Some? && AfterId(mid, AfterId(head, s).value).Some?
            && Match(tail, AfterId(mid, AfterId(head, s).value).value).Some?
  {
    MatchLitSeg(head, Lit(mid, Seg(tail)), s);
    if AfterId(head, s).Some? { MatchLitSeg(mid, tail, AfterId(head, s).value); }
  }

  lemma TailsDiffer(s: string)
    ensures !(s == "" && "/nodes/" <= s) && !(s == "" && "/render" <= s) && !("/nodes/" <= s && "/render" <= s)
    ensures !(s == "" && "/versions/" <= s)
  {
    assert "/nodes/"[1] == 'n' && "/render"[1] == 'r';
  }

  /** No string matches two of the patterns, so the order of the attempts does not matter. */
  lemma AtMostOnePattern(p: Parts, q: Parts, s: string)
    requires Match(PatternOf(p), s).Some? && Match(PatternOf(q), s).Some?
    ensures PatternOf(p) == PatternOf(q)
  {
    var mid := "/versions/";
    MatchLitSeg(HEAD, End, s);
    MatchTwoIds(HEAD, mid, End, s);
    MatchTwoIds(HEAD, mid, Lit("/nodes/", Seg(End)), s);
    MatchTwoIds(HEAD, mid, Lit("/render", End), s);
    if AfterId(HEAD, s).Some? {
      var a := AfterId(HEAD, s).value;
      TailsDiffer(a);
      if AfterId(mid, a).Some? { TailsDiffer(AfterId(mid, a).value); }
    }
  }

  // ---------------------------------------------------------------------------------------------
  // Round trips
  // ---------------------------------------------------------------------------------------------

  /** The captured groups are the ids of the parts. */
  lemma GroupsFit(p: Parts, s: string)
    requires Match(PatternOf(p), s).Some?
    ensures var g := Match(PatternOf(p), s).value;
            && |g| == |GroupsOf(p)|
            && (|g| == 1 ==> g == [g[0]]) && (|g| == 2 ==> g == [g[0], g[1]]) && (|g| == 3 ==> g == [g[0], g[1], g[2]])
  {
    PatternFacts(p);
    MatchSound(PatternOf(p), s);
    Listed(Match(PatternOf(p), s).value);
  }

  lemma Listed(g: seq<string>)
    ensures (|g| == 1 ==> g == [g[0]]) && (|g| == 2 ==> g == [g[0], g[1]]) && (|g| == 3 ==> g == [g[0], g[1], g[2]])
  {
  }

  /** A match of k's pattern has k's groups and excludes the patterns of all other kinds. */
  lemma KindDecides(k: Parts, p: Parts, s: string)
    requires Match(PatternOf(k), s).Some?
    ensures |Match(PatternOf(k), s).value| == |GroupsOf(k)|
    ensures Match(PatternOf(p), s).Some? ==> PatternOf(p) == PatternOf(k)
  {
    GroupsFit(k, s);
    if Match(PatternOf(p), s).Some? { AtMostOnePattern(p, k, s); }
  }

  lemma SamePatternSameKind(p: Parts, k: Parts)
    requires PatternOf(p) == PatternOf(k)
    ensures (p.Document? <==> k.Document?) && (p.Version? <==> k.Version?) && (p.Node? <==> k.Node?)
    ensures p.Render? <==> k.Render?
  {
  }

  lemma FirstMatchIff(s: string, p: Parts)
    ensures FirstMatch(s) == Some(p) <==> Match(PatternOf(p), s) == Some(GroupsOf(p))
  {
    if Match(PatternOf(p), s).Some? { GroupsFit(p, s); }
    if Match(NodePattern(), s).Some? {
      FoundKind(Node("", "", ""), p, s);
    } else if Match(RenderPattern(), s).Some? {
      FoundKind(Render("", ""), p, s);
    } else if Match(VersionPattern(End), s).Some? {
      FoundKind(Version("", ""), p, s);
    } else if Match(DocPattern(), s).Some? {
      FoundKind(Document(""), p, s);
    }
  }

  lemma FoundKind(k: Parts, p: Parts, s: string)
    requires Match(PatternOf(k), s).Some?
    ensures |Match(PatternOf(k), s).value| == |GroupsOf(k)|
    ensures Match(PatternOf(p), s).Some? ==>
              && (p.Document? <==> k.Document?) && (p.Version? <==> k.Version?)
              && (p.Node? <==> k.Node?) && (p.Render? <==> k.Render?)
  {
    KindDecides(k, p, s);
    if Match(PatternOf(p), s).Some? { SamePatternSameKind(p, k); }
  }

  /** The parser in terms of the patterns: it finds p exactly when the stripped input matches p's
      pattern with p's ids. */
  lemma ParseIff(uri: string, p: Parts)
    ensures ParseUri(uri) == Some(p) <==> Match(PatternOf(p), Text.Strip(uri)) == Some(GroupsOf(p))
  {
    if uri == "" {
      EmptyMatchesNothing(p);
    } else {
      FirstMatchIff(Text.Strip(uri), p);
    }
  }

  lemma EmptyMatchesNothing(p: Parts)
    ensures Match(PatternOf(p), "") == None && Text.Strip("") == ""
  {
  }

  /** The id a URI of this kind ends with, if it ends with one. */
  function LastId(p: Parts): string {
    match p case Document(d) => d case Version(_, v) => v case Node(_, _, n) => n case Render(_, _) => "render"
  }

  /** A built URI parses back to its parts exactly when no id contains a slash and the id at its end,
      if there is one, does not end in white space. */
  lemma BuiltUriParsesIff(p: Parts)
    requires Build(p).Ok?
    ensures ParseUri(Build(p).value) == Some(p) <==>
            (forall i | 0 <= i < |GroupsOf(p)| :: '/' !in GroupsOf(p)[i])
            && !Text.IsSpace(LastId(p)[|LastId(p)| - 1])
  {
    var s, gs := Build(p).value, GroupsOf(p);
    BuildPrints(p);
    PatternFacts(p);
    ParseIff(s, p);
    MatchIff(PatternOf(p), Text.Strip(s), gs);
    BuiltEnds(p);
    StripIsSame(s);
    NonEmptyGroups(p);
  }

  lemma BuiltEnds(p: Parts)
    requires Build(p).Ok?
    ensures var s := Build(p).value;
            s != "" && !Text.IsSpace(s[0]) && LastId(p) != "" && s[|s| - 1] == LastId(p)[|LastId(p)| - 1]
  {
    assert HEAD[0] == 'm';
  }

  lemma NonEmptyGroups(p: Parts)
    requires Build(p).Ok?
    ensures forall i | 0 <= i < |GroupsOf(p)| :: GroupsOf(p)[i] != ""
  {
  }

  lemma StripIsSame(s: string)
    requires s != "" && !Text.IsSpace(s[0])
    ensures Text.Strip(s) == s <==> !Text.IsSpace(s[|s| - 1])
  {
    assert Text.StripLeft(s) == s;
  }

  /** Rebuilding a parsed URI gives the stripped input back, unless its version is `latest`, which the
      builders refuse. */
  lemma ParsedUriRebuilds(uri: string, p: Parts)
    requires ParseUri(uri) == Some(p)
    ensures Build(p) == if !p.Document? && p.versionId == "latest" then Err(LatestNotPinned) else Ok(Text.Strip(uri))
  {
    ParseIff(uri, p);
    var gs := GroupsOf(p);
    MatchSound(PatternOf(p), Text.Strip(uri));
    assert AllSegments(gs);
    assert gs[0] != "";
    if !p.Document? { assert gs[1] != ""; }
    if p.Node? { assert gs[2] != ""; }
    if Build(p).Ok? { BuildPrints(p); }
  }
}
