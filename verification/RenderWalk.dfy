/**
 Rendering a block tree to text with offset anchors.

 The walk appends to `parts` and `anchors` and keeps a running cursor; afterwards the text is
 trimmed at the end and the anchors are clamped to it.
 */
module RenderWalk {
  import opened Wrappers
  import opened Sequences

  datatype Block = Block(kind: string, id: string, content: string, headingLevel: Option<int>,
                         ordered: bool, children: seq<Block>)

  datatype Anchor = Anchor(nodeId: string, start: nat, end: nat)

  /** One emitted rendering, before it is placed in the text. */
  datatype Node = Node(id: string, text: string)

  function Repeat(c: char, n: nat): string { seq(n, _ => c) }

  /** `max(1, min(6, int(heading_level or 1)))` */
  function HeadingMarks(level: Option<int>): nat {
    var l := if level.None? || level.value == 0 then 1 else level.value;
    if l < 1 then 1 else if l > 6 then 6 else l
  }

  function LineOrNothing(text: string): string {
    if text == "" then "" else text + "\n"
  }

  function Rendered(b: Block, markdown: bool): string {
    if !markdown then LineOrNothing(b.content)
    else if b.kind == "heading" then Repeat('#', HeadingMarks(b.headingLevel)) + " " + b.content + "\n"
    else if b.kind == "list_item" then (if b.ordered then "1. " else "- ") + b.content + "\n"
    else if b.kind == "paragraph" then b.content + "\n"
    else if b.kind == "quote" then "> " + b.content + "\n"
    else if b.kind == "section" || b.kind == "appendix" then
      if b.content == "" then "" else "## " + b.content + "\n"
    else LineOrNothing(b.content)
  }

  // ---------------------------------------------------------------------------------------------
  // What the walk is meant to produce
  // ---------------------------------------------------------------------------------------------

  /** The non-empty renderings in document order: a block before its children. */
  function Emitted(blocks: seq<Block>, markdown: bool): seq<Node>
    decreases blocks
  {
    if blocks == [] then []
    else EmittedBlock(blocks[0], markdown) + Emitted(blocks[1..], markdown)
  }

  function EmittedBlock(b: Block, markdown: bool): seq<Node> {
    (if Rendered(b, markdown) == "" then [] else [Node(b.id, Rendered(b, markdown))]) + Emitted(b.children, markdown)
  }

  function TextOf(nodes: seq<Node>): string {
    if nodes == [] then "" else nodes[0].text + TextOf(nodes[1..])
  }

  /** One anchor for each node that has an id, at the place of its text. */
  function AnchorsOf(nodes: seq<Node>, start: nat): seq<Anchor> {
    if nodes == [] then []
    else
      var next := start + |nodes[0].text|;
      (if nodes[0].id == "" then [] else [Anchor(nodes[0].id, start, next)]) + AnchorsOf(nodes[1..], next)
  }

  function Join(parts: seq<string>): string {
    if parts == [] then "" else parts[0] + Join(parts[1..])
  }

  lemma {:induction false} TextOfConcat(a: seq<Node>, b: seq<Node>)
    ensures TextOf(a + b) == TextOf(a) + TextOf(b)
  {
    if a == [] {
      assert a + b == b;
    } else {
      TextOfConcat(a[1..], b);
      HeadOfConcat(a, b);
      Assoc(a[0].text, TextOf(a[1..]), TextOf(b));
    }
  }

  lemma {:induction false} AnchorsOfConcat(a: seq<Node>, b: seq<Node>, start: nat)
    ensures AnchorsOf(a + b, start) == AnchorsOf(a, start) + AnchorsOf(b, start + |TextOf(a)|)
  {
    if a == [] {
      assert a + b == b;
    } else {
      var next := start + |a[0].text|;
      AnchorsOfConcat(a[1..], b, next);
      HeadOfConcat(a, b);
      Assoc(if a[0].id == "" then [] else [Anchor(a[0].id, start, next)], AnchorsOf(a[1..], next),
            AnchorsOf(b, next + |TextOf(a[1..])|));
    }
  }

  lemma {:induction false} JoinConcat(a: seq<string>, b: seq<string>)
    ensures Join(a + b) == Join(a) + Join(b)
  {
    if a == [] {
      assert a + b == b;
    } else {
      JoinConcat(a[1..], b);
      HeadOfConcat(a, b);
      Assoc(a[0], Join(a[1..]), Join(b));
    }
  }

  lemma {:induction false} EmittedConcat(a: seq<Block>, b: seq<Block>, markdown: bool)
    ensures Emitted(a + b, markdown) == Emitted(a, markdown) + Emitted(b, markdown)
    decreases |a|
  {
    if a == [] {
      assert a + b == b;
    } else {
      EmittedConcat(a[1..], b, markdown);
      HeadOfConcat(a, b);
      Assoc(EmittedBlock(a[0], markdown), Emitted(a[1..], markdown), Emitted(b, markdown));
    }
  }

  lemma EmittedOne(b: Block, markdown: bool)
    ensures Emitted([b], markdown) == EmittedBlock(b, markdown)
  {
    assert [b][1..] == [];
  }

  lemma EmittedSnoc(blocks: seq<Block>, i: nat, markdown: bool)
    requires i < |blocks|
    ensures Emitted(blocks[..i + 1], markdown) == Emitted(blocks[..i], markdown) + EmittedBlock(blocks[i], markdown)
  {
    assert blocks[..i + 1] == blocks[..i] + [blocks[i]];
    EmittedConcat(blocks[..i], [blocks[i]], markdown);
    EmittedOne(blocks[i], markdown);
  }

  // ---------------------------------------------------------------------------------------------
  // The text, kind by kind
  // ---------------------------------------------------------------------------------------------

  /** The node emitted for a block without children. */
  function Leaf(id: string, text: string): seq<Node> { if text == "" then [] else [Node(id, text)] }

  /** Markdown, kind by kind. */
  lemma MarkdownText(b: Block)
    requires b.children == []
    ensures b.kind == "heading" ==>
              exists marks: string ::
                && (forall c | c in marks :: c == '#')
                && (var given := b.headingLevel;
                    var level := if given == None || given == Some(0) then 1 else given.value;
                    if level <= 1 then |marks| == 1 else if level >= 6 then |marks| == 6 else |marks| == level)
                && Emitted([b], true) == [Node(b.id, marks + " " + b.content + "\n")]
    ensures b.kind == "list_item" && b.ordered ==> Emitted([b], true) == [Node(b.id, "1. " + b.content + "\n")]
    ensures b.kind == "list_item" && !b.ordered ==> Emitted([b], true) == [Node(b.id, "- " + b.content + "\n")]
    ensures b.kind == "paragraph" ==> Emitted([b], true) == [Node(b.id, b.content + "\n")]
    ensures b.kind == "quote" ==> Emitted([b], true) == [Node(b.id, "> " + b.content + "\n")]
    ensures b.kind in {"section", "appendix"} ==>
              Emitted([b], true) == if b.content == "" then [] else [Node(b.id, "## " + b.content + "\n")]
    ensures b.kind !in {"heading", "list_item", "paragraph", "quote", "section", "appendix"} ==>
              Emitted([b], true) == if b.content == "" then [] else [Node(b.id, b.content + "\n")]
  {
    SingleEmitted(b, true);
    if b.kind == "heading" {
      var marks := Repeat('#', HeadingMarks(b.headingLevel));
      assert Rendered(b, true) == marks + " " + b.content + "\n";
    }
    KindsDiffer();
  }

  lemma KindsDiffer()
    ensures "heading" != "list_item" && "heading" != "paragraph" && "heading" != "quote" && "heading" != "section"
    ensures "list_item" != "paragraph" && "list_item" != "quote" && "list_item" != "section"
    ensures "paragraph" != "quote" && "paragraph" != "section" && "quote" != "section"
    ensures "heading" != "appendix" && "list_item" != "appendix" && "paragraph" != "appendix" && "quote" != "appendix"
  {
    assert "heading"[0] == 'h' && "list_item"[0] == 'l' && "paragraph"[0] == 'p' && "quote"[0] == 'q';
    assert "section"[0] == 's' && "appendix"[0] == 'a';
  }

  /** Plain text: the content on a line of its own, whatever the kind, and nothing for no content. */
  lemma PlainText(b: Block)
    requires b.children == []
    ensures Emitted([b], false) == if b.content == "" then [] else [Node(b.id, b.content + "\n")]
  {
    SingleEmitted(b, false);
  }

  lemma SingleEmitted(b: Block, markdown: bool)
    requires b.children == []
    ensures Emitted([b], markdown) == Leaf(b.id, Rendered(b, markdown))
  {
    EmittedOne(b, markdown);
  }

  /** Document order: a block's own text, then its children's, then that of the blocks after it. */
  lemma DocumentOrder(b: Block, rest: seq<Block>, markdown: bool)
    ensures Emitted([], markdown) == []
    ensures Emitted([b] + rest, markdown)
         == Emitted([b.(children := [])], markdown) + Emitted(b.children, markdown) + Emitted(rest, markdown)
    ensures TextOf(Emitted([b] + rest, markdown))
         == TextOf(Emitted([b.(children := [])], markdown)) + TextOf(Emitted(b.children, markdown))
            + TextOf(Emitted(rest, markdown))
  {
    OwnBeforeChildren(b, markdown);
    EmittedConcat([b], rest, markdown);
    EmittedOne(b, markdown);
    TextOfThree(Emitted([b.(children := [])], markdown), Emitted(b.children, markdown), Emitted(rest, markdown));
  }

  lemma OwnBeforeChildren(b: Block, markdown: bool)
    ensures EmittedBlock(b, markdown) == Emitted([b.(children := [])], markdown) + Emitted(b.children, markdown)
  {
    SingleEmitted(b.(children := []), markdown);
    ChildrenDoNotShow(b, markdown);
  }

  lemma ChildrenDoNotShow(b: Block, markdown: bool)
    ensures Rendered(b.(children := []), markdown) == Rendered(b, markdown)
  {
  }

  lemma TextOfThree(a: seq<Node>, b: seq<Node>, c: seq<Node>)
    ensures TextOf(a + b + c) == TextOf(a) + TextOf(b) + TextOf(c)
  {
    TextOfConcat(a + b, c);
    TextOfConcat(a, b);
  }

  // ---------------------------------------------------------------------------------------------
  // The walk
  // ---------------------------------------------------------------------------------------------

  class Walker {
    const markdown: bool
    const includeAnchors: bool
    var parts: seq<string>
    var anchors: seq<Anchor>
    var cursor: nat
    ghost var nodes: seq<Node>

    /** Text, anchors and cursor agree with the nodes emitted so far. */
    ghost predicate Valid()
      reads this
    {
      && Join(parts) == TextOf(nodes)
      && cursor == |TextOf(nodes)|
      && anchors == if includeAnchors then AnchorsOf(nodes, 0) else []
    }

    constructor (markdown: bool, includeAnchors: bool)
      ensures this.markdown == markdown && this.includeAnchors == includeAnchors
      ensures Valid() && nodes == []
    {
      this.markdown, this.includeAnchors := markdown, includeAnchors;
      parts, anchors, cursor, nodes := [], [], 0, [];
    }

    method EmitNode(nodeId: string, text: string)
      requires Valid()
      modifies this
      ensures Valid() && nodes == old(nodes) + if text == "" then [] else [Node(nodeId, text)]
    {
      if text == "" { return; }
      TextOfConcat(nodes, [Node(nodeId, text)]);
      AnchorsOfConcat(nodes, [Node(nodeId, text)], 0);
      JoinConcat(parts, [text]);
      if includeAnchors && nodeId != "" {
        anchors := anchors + [Anchor(nodeId, cursor, cursor + |text|)];
      }
      parts := parts + [text];
      cursor := cursor + |text|;
      nodes := nodes + [Node(nodeId, text)];
    }

    method Walk(items: seq<Block>)
      requires Valid()
      modifies this
      ensures Valid() && nodes == old(nodes) + Emitted(items, markdown)
      decreases items
    {
      var i := 0;
      while i < |items|
        invariant 0 <= i <= |items|
        invariant Valid() && nodes == old(nodes) + Emitted(items[..i], markdown)
      {
        var b := items[i];
        ghost var done := nodes;
        EmitNode(b.id, Rendered(b, markdown));
        ghost var own := nodes[|done|..];
        if b.children != [] {
          Walk(b.children);
        }
        Assoc(done, own, Emitted(b.children, markdown));
        Assoc(old(nodes), Emitted(items[..i], markdown), EmittedBlock(b, markdown));
        EmittedSnoc(items, i, markdown);
        i := i + 1;
      }
      assert items[..i] == items;
    }
  }

  // ---------------------------------------------------------------------------------------------
  // Trimming and clamping
  // ---------------------------------------------------------------------------------------------

  /** Python's `s.rstrip("\n")`. */
  function StripNewlines(s: string): (t: string)
    ensures t <= s && (t == "" || t[|t| - 1] != '\n')
    ensures forall i | |t| <= i < |s| :: s[i] == '\n'
    decreases |s|
  {
    if s == "" || s[|s| - 1] != '\n' then s else StripNewlines(s[..|s| - 1])
  }

  function FinalText(full: string, markdown: bool): string {
    if markdown then StripNewlines(full) + "\n" else StripNewlines(full)
  }

  function Min(a: nat, b: nat): nat { if a < b then a else b }

  function Clamp(a: Anchor, limit: nat): Anchor {
    a.(start := Min(a.start, limit), end := Min(a.end, limit))
  }

  function ClampAll(anchors: seq<Anchor>, limit: nat): (r: seq<Anchor>)
    ensures |r| == |anchors| && forall i | 0 <= i < |r| :: r[i] == Clamp(anchors[i], limit)
  {
    if anchors == [] then [] else [Clamp(anchors[0], limit)] + ClampAll(anchors[1..], limit)
  }

  method WalkBlocksForText(blocks: seq<Block>, markdown: bool, includeAnchors: bool)
    returns (text: string, anchors: seq<Anchor>)
    ensures var nodes := Emitted(blocks, markdown);
            && text == FinalText(TextOf(nodes), markdown)
            && anchors == if includeAnchors then FinalAnchors(nodes, markdown) else []
    ensures Trimmed(TextOf(Emitted(blocks, markdown)), text, markdown) && EndsRight(text, markdown)
  {
    var w := new Walker(markdown, includeAnchors);
    w.Walk(blocks);
    assert w.nodes == Emitted(blocks, markdown);
    FinalTextTrims(TextOf(w.nodes), markdown);
    text := FinalText(Join(w.parts), markdown);
    anchors := w.anchors;
    if |text| != w.cursor {
      anchors := ClampAll(anchors, |text|);
    }
  }

  /** The final text is the full text without its newlines at the end, and then with one in markdown. */
  ghost predicate Trimmed(full: string, text: string, markdown: bool) {
    exists t: string ::
      && t <= full && (t == "" || t[|t| - 1] != '\n') && (forall i | |t| <= i < |full| :: full[i] == '\n')
      && text == t + (if markdown then "\n" else "")
  }

  /** Markdown ends in exactly one newline, plain text in none. */
  ghost predicate EndsRight(text: string, markdown: bool) {
    && (markdown ==> text != "" && text[|text| - 1] == '\n' && (|text| >= 2 ==> text[|text| - 2] != '\n'))
    && (!markdown && text != "" ==> text[|text| - 1] != '\n')
  }

  lemma FinalTextTrims(full: string, markdown: bool)
    ensures Trimmed(full, FinalText(full, markdown), markdown) && EndsRight(FinalText(full, markdown), markdown)
  {
  }

  /** The anchors a caller gets for the emitted nodes. */
  function FinalAnchors(nodes: seq<Node>, markdown: bool): seq<Anchor> {
    var full := TextOf(nodes);
    var text := FinalText(full, markdown);
    if |text| == |full| then AnchorsOf(nodes, 0) else ClampAll(AnchorsOf(nodes, 0), |text|)
  }

  // ---------------------------------------------------------------------------------------------
  // What the anchors mean in the final text
  // ---------------------------------------------------------------------------------------------

  function Anchored(nodes: seq<Node>): seq<Node> {
    if nodes == [] then []
    else (if nodes[0].id == "" then [] else [nodes[0]]) + Anchored(nodes[1..])
  }

  predicate Newlines(s: string) { forall i :: 0 <= i < |s| ==> s[i] == '\n' }

  ghost predicate Lines(nodes: seq<Node>) {
    forall i | 0 <= i < |nodes| :: nodes[i].text != "" && nodes[i].text[|nodes[i].text| - 1] == '\n'
  }

  /** Every emitted rendering is a non-empty text that ends its line. */
  lemma {:induction false} EmittedLines(blocks: seq<Block>, markdown: bool)
    ensures Lines(Emitted(blocks, markdown))
    decreases blocks
  {
    if blocks == [] {
    } else {
      var b := blocks[0];
      EmittedLines(b.children, markdown);
      EmittedLines(blocks[1..], markdown);
      RenderedEndsLine(b, markdown);
      var own := if Rendered(b, markdown) == "" then [] else [Node(b.id, Rendered(b, markdown))];
      LinesConcat(own, Emitted(b.children, markdown));
      LinesConcat(EmittedBlock(b, markdown), Emitted(blocks[1..], markdown));
    }
  }

  lemma RenderedEndsLine(b: Block, markdown: bool)
    ensures var r := Rendered(b, markdown); r != "" ==> r[|r| - 1] == '\n'
  {
  }

  lemma LinesConcat(a: seq<Node>, b: seq<Node>)
    requires Lines(a) && Lines(b)
    ensures Lines(a + b)
  {
  }

  /** Before trimming, an anchor cuts its node's text out of the full text. */
  ghost predicate Cuts(a: Anchor, node: Node, full: string) {
    a.start <= a.end <= |full| && a.nodeId == node.id && full[a.start..a.end] == node.text
  }

  /** Anchors in order from `start` on, each cutting its node's text out of the full text. */
  ghost predicate InOrder(a: seq<Anchor>, ns: seq<Node>, start: nat, full: string) {
    && |a| == |ns|
    && (forall k | 0 <= k < |a| :: start <= a[k].start && Cuts(a[k], ns[k], full))
    && (forall l, k | 0 <= l < k < |a| :: a[l].end <= a[k].start)
  }

  lemma InOrderCons(a: Anchor, n: Node, rest: seq<Anchor>, ns: seq<Node>, full: string)
    requires Cuts(a, n, full) && InOrder(rest, ns, a.end, full)
    ensures InOrder([a] + rest, [n] + ns, a.start, full)
  {
  }

  /** Anchors before trimming: one for each node with an id, in order, cutting out that node's text. */
  lemma {:induction false} AnchorsBeforeTrim(nodes: seq<Node>, before: string)
    ensures InOrder(AnchorsOf(nodes, |before|), Anchored(nodes), |before|, before + TextOf(nodes))
  {
    if nodes == [] {
    } else {
      var next := before + nodes[0].text;
      Assoc(before, nodes[0].text, TextOf(nodes[1..]));
      AnchorsBeforeTrim(nodes[1..], next);
      if nodes[0].id != "" {
        InOrderCons(Anchor(nodes[0].id, |before|, |next|), nodes[0], AnchorsOf(nodes[1..], |next|),
                    Anchored(nodes[1..]), next + TextOf(nodes[1..]));
      }
    }
  }

  lemma FinalTextCuts(nodes: seq<Node>, markdown: bool)
    requires Lines(nodes) && nodes != []
    ensures var full := TextOf(nodes);
            FinalText(full, markdown) <= full && Newlines(full[|FinalText(full, markdown)|..])
  {
    var full := TextOf(nodes);
    LastIsNewline(nodes);
    var t := StripNewlines(full);
    assert |t| < |full|;
    assert full[|t|] == '\n';
    assert t + "\n" == full[..|t| + 1];
  }

  lemma {:induction false} LastIsNewline(nodes: seq<Node>)
    requires Lines(nodes) && nodes != []
    ensures TextOf(nodes) != "" && TextOf(nodes)[|TextOf(nodes)| - 1] == '\n'
  {
    if |nodes| > 1 { LastIsNewline(nodes[1..]); } else { assert nodes[1..] == []; }
  }

  /** The anchor really cut out of the text: its node's rendering, less newlines lost at the end. */
  ghost predicate Points(a: Anchor, node: Node, text: string) {
    && a.start <= a.end <= |text|
    && a.nodeId == node.id
    && text[a.start..a.end] <= node.text
    && (text[a.start..a.end] == node.text || a.end == |text|)
    && Newlines(node.text[a.end - a.start..])
  }

  /** A slice of a full text with newlines only behind the cut, cut likewise. */
  lemma SliceOfCut(full: string, text: string, start: nat, end: nat)
    requires text <= full && Newlines(full[|text|..]) && start <= end <= |full|
    ensures var s, e := Min(start, |text|), Min(end, |text|);
            text[s..e] <= full[start..end] && Newlines(full[start..end][e - s..])
  {
    var s, e := Min(start, |text|), Min(end, |text|);
    SliceIsPrefix(full, text, start, end);
    var rest := full[start..end][e - s..];
    forall i | 0 <= i < |rest| ensures rest[i] == '\n' {
      var j := start + (e - s) + i;
      assert rest[i] == full[j];
      NewlineBehind(full, text, j);
    }
  }

  lemma SliceIsPrefix(full: string, text: string, start: nat, end: nat)
    requires text <= full && start <= end <= |full|
    ensures text[Min(start, |text|)..Min(end, |text|)] <= full[start..end]
  {
    assert text == full[..|text|];
  }

  lemma NewlineBehind(full: string, text: string, j: nat)
    requires text <= full && Newlines(full[|text|..]) && |text| <= j < |full|
    ensures full[j] == '\n'
  {
    assert full[j] == full[|text|..][j - |text|];
  }

  lemma ClampedPoints(a: Anchor, node: Node, full: string, text: string)
    requires text <= full && Newlines(full[|text|..]) && Cuts(a, node, full)
    ensures Points(Clamp(a, |text|), node, text)
  {
    SliceOfCut(full, text, a.start, a.end);
  }

  /** The main result: for every block tree and both formats there is one anchor for each emitted
      node with an id, in document order, pairwise disjoint, inside the final text, and each cuts
      out its node's rendering up to trailing newlines. */
  lemma AnchorsPoint(blocks: seq<Block>, markdown: bool)
    ensures var nodes := Emitted(blocks, markdown);
            var text := FinalText(TextOf(nodes), markdown);
            var a := FinalAnchors(nodes, markdown);
            && |a| == |Anchored(nodes)|
            && (forall k | 0 <= k < |a| :: Points(a[k], Anchored(nodes)[k], text))
            && (forall l, k | 0 <= l < k < |a| :: a[l].end <= a[k].start)
  {
    EmittedLines(blocks, markdown);
    NodesPoint(Emitted(blocks, markdown), markdown);
  }

  lemma NodesPoint(nodes: seq<Node>, markdown: bool)
    requires Lines(nodes)
    ensures var text := FinalText(TextOf(nodes), markdown);
            var a := FinalAnchors(nodes, markdown);
            && |a| == |Anchored(nodes)|
            && (forall k | 0 <= k < |a| :: Points(a[k], Anchored(nodes)[k], text))
            && (forall l, k | 0 <= l < k < |a| :: a[l].end <= a[k].start)
  {
    if nodes != [] {
      AnchorsBeforeTrim(nodes, "");
      assert "" + TextOf(nodes) == TextOf(nodes);
      FinalTextCuts(nodes, markdown);
      AnchorsInside(nodes);
      AnchorsClamped(nodes, markdown);
      AllPoint(AnchorsOf(nodes, 0), FinalAnchors(nodes, markdown), Anchored(nodes), TextOf(nodes),
               FinalText(TextOf(nodes), markdown));
    }
  }

  /** The final anchors are the raw ones clamped, also when the length did not change. */
  lemma AnchorsClamped(nodes: seq<Node>, markdown: bool)
    requires forall k | 0 <= k < |AnchorsOf(nodes, 0)| ::
               AnchorsOf(nodes, 0)[k].start <= AnchorsOf(nodes, 0)[k].end <= |TextOf(nodes)|
    ensures var raw, a := AnchorsOf(nodes, 0), FinalAnchors(nodes, markdown);
            |a| == |raw| && forall k | 0 <= k < |a| :: a[k] == Clamp(raw[k], |FinalText(TextOf(nodes), markdown)|)
  {
  }

  lemma AllPoint(raw: seq<Anchor>, a: seq<Anchor>, ns: seq<Node>, full: string, text: string)
    requires text <= full && Newlines(full[|text|..]) && |raw| == |a| == |ns|
    requires forall k | 0 <= k < |raw| :: Cuts(raw[k], ns[k], full) && a[k] == Clamp(raw[k], |text|)
    requires forall l, k | 0 <= l < k < |raw| :: raw[l].end <= raw[k].start
    ensures forall k | 0 <= k < |a| :: Points(a[k], ns[k], text)
    ensures forall l, k | 0 <= l < k < |a| :: a[l].end <= a[k].start
  {
    forall k | 0 <= k < |a| ensures Points(a[k], ns[k], text) {
      ClampedPoints(raw[k], ns[k], full, text);
    }
  }

  /** When every emitted node has an id, the anchors tile the text: nothing is left between them,
      and together they cover it (an empty document's lone newline excepted). */
  lemma AnchorsTile(blocks: seq<Block>, markdown: bool)
    requires forall n | n in Emitted(blocks, markdown) :: n.id != ""
    requires Emitted(blocks, markdown) != []
    ensures var text := FinalText(TextOf(Emitted(blocks, markdown)), markdown);
            var a := FinalAnchors(Emitted(blocks, markdown), markdown);
            && |a| > 0 && a[0].start == 0 && a[|a| - 1].end == |text|
            && forall k | 0 < k < |a| :: a[k - 1].end == a[k].start
  {
    EmittedLines(blocks, markdown);
    NodesTile(Emitted(blocks, markdown), markdown);
  }

  lemma NodesTile(nodes: seq<Node>, markdown: bool)
    requires Lines(nodes) && nodes != [] && forall n | n in nodes :: n.id != ""
    ensures var text := FinalText(TextOf(nodes), markdown);
            var a := FinalAnchors(nodes, markdown);
            && |a| > 0 && a[0].start == 0 && a[|a| - 1].end == |text|
            && forall k | 0 < k < |a| :: a[k - 1].end == a[k].start
  {
    FinalTextCuts(nodes, markdown);
    RawAnchorsTile(nodes, 0);
    AnchorsInside(nodes);
    AnchorsClamped(nodes, markdown);
    TilesClamped(AnchorsOf(nodes, 0), FinalAnchors(nodes, markdown), |TextOf(nodes)|,
                 |FinalText(TextOf(nodes), markdown)|);
  }

  lemma AnchorsInside(nodes: seq<Node>)
    ensures forall k | 0 <= k < |AnchorsOf(nodes, 0)| ::
              AnchorsOf(nodes, 0)[k].start <= AnchorsOf(nodes, 0)[k].end <= |TextOf(nodes)|
  {
    AnchorsBeforeTrim(nodes, "");
    assert "" + TextOf(nodes) == TextOf(nodes);
  }

  lemma TilesClamped(raw: seq<Anchor>, a: seq<Anchor>, total: nat, limit: nat)
    requires limit <= total && |a| == |raw| > 0 && raw[0].start == 0 && raw[|raw| - 1].end == total
    requires forall k | 0 <= k < |a| :: a[k] == Clamp(raw[k], limit)
    requires forall k | 0 < k < |raw| :: raw[k - 1].end == raw[k].start
    ensures a[0].start == 0 && a[|a| - 1].end == limit
    ensures forall k | 0 < k < |a| :: a[k - 1].end == a[k].start
  {
  }

  lemma {:induction false} RawAnchorsTile(nodes: seq<Node>, start: nat)
    requires nodes != [] && forall n | n in nodes :: n.id != ""
    ensures var a := AnchorsOf(nodes, start);
            && |a| == |nodes| && a[0].start == start && a[|a| - 1].end == start + |TextOf(nodes)|
            && forall k | 0 < k < |a| :: a[k - 1].end == a[k].start
  {
    if |nodes| > 1 {
      RawAnchorsTile(nodes[1..], start + |nodes[0].text|);
    } else {
      assert nodes[1..] == [];
    }
  }
}
