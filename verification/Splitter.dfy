/** Cutting one oversized node into structural units. */
module Splitting {
  import opened Sequences
  import opened Markdown
  import opened Grouping
  import opened Packing
  import opened CodeSplitting
  import Tokenizing

  // ---------------------------------------------------------------------------------------
  // Lists
  // ---------------------------------------------------------------------------------------

  function OfKind(nodes: seq<Node>, kind: Kind): seq<Node> {
    Filter(nodes, (n: Node) => n.kind == kind)
  }

  function Cover(a: Option<Span>, b: Option<Span>): Option<Span> {
    if a.None? then b else if b.None? then a
    else Some(Span(if a.value.start <= b.value.start then a.value.start else b.value.start,
                   if a.value.end >= b.value.end then a.value.end else b.value.end))
  }

  function CoverAll(nodes: seq<Node>): Option<Span> {
    if nodes == [] then None else Cover(nodes[0].span, CoverAll(nodes[1..]))
  }

  /** The located nodes' whole extent: from the first of their starts to the last of their ends. */
  lemma {:induction false} CoverAllIs(nodes: seq<Node>)
    ensures match CoverAll(nodes)
      case None => forall n :: n in nodes ==> n.span.None?
      case Some(s) =>
        && (forall n :: n in nodes && n.span.Some? ==> s.start <= n.span.value.start && n.span.value.end <= s.end)
        && (exists n :: n in nodes && n.span.Some? && n.span.value.start == s.start)
        && (exists n :: n in nodes && n.span.Some? && n.span.value.end == s.end)
  {
    if nodes != [] {
      var rest := nodes[1..];
      CoverAllIs(rest);
      assert forall n :: n in nodes <==> n == nodes[0] || n in rest;
    }
  }

  function ListPart(node: Node, group: seq<Node>, index: nat): Node {
    node.(id := PartOf(node.id, index), text := JoinTexts(group), children := group, span := CoverAll(group))
  }

  function ListParts(p: Policy, node: Node): seq<Node> {
    var items := OfKind(node.children, BulletItem);
    if items == [] then [node]
    else
      var groups := Groups(PackBudget(p), items);
      seq(|groups|, i requires 0 <= i < |groups| => ListPart(node, groups[i], i))
  }

  /** The loop over the items: list items are grouped exactly as the packer groups units. */
  method GroupItems(p: Policy, items: seq<Node>) returns (groups: seq<seq<Node>>)
    requires p.Valid()
    ensures groups == Groups(PackBudget(p), items)
  {
    hide Joins, Groups, Running;
    ghost var b := PackBudget(p);
    RunStarts(b, items);
    groups := [];
    var current: seq<Node> := [];
    var i := 0;
    while i < |items|
      invariant i <= |items| && Running(b, items, groups, current, i)
    {
      var item := items[i];
      Decision(p, |groups|, current, item);
      RunTakes(b, items, groups, current, i);
      assert [] + [item] == [item];
      var currentText := JoinTexts(current);
      var candidate := JoinTexts(current + [item]);
      if current != [] && (p.count(item.text) > p.threshold
                           || !p.Append(p.count(currentText), p.count(candidate))) {
        groups := groups + [current];
        current := [];
      }
      current := current + [item];
      if p.count(item.text) > p.threshold {
        RunSeals(b, items, groups, current, i + 1);
        groups := groups + [current];
        current := [];
      }
      i := i + 1;
    }
    RunEnds(b, items, groups, current);
    if current != [] {
      groups := groups + [current];
    }
  }

  method SplitList(p: Policy, node: Node) returns (parts: seq<Node>)
    requires p.Valid()
    ensures parts == ListParts(p, node)
  {
    var items := OfKind(node.children, BulletItem);
    if items == [] {
      return [node];
    }
    var groups := GroupItems(p, items);
    parts := seq(|groups|, i requires 0 <= i < |groups| => ListPart(node, groups[i], i));
  }

  // ---------------------------------------------------------------------------------------
  // Tables
  // ---------------------------------------------------------------------------------------

  /** Drop trailing CR and LF. */
  function RStripBreaks(s: string): string {
    if s != "" && (s[|s| - 1] == '\r' || s[|s| - 1] == '\n') then RStripBreaks(s[..|s| - 1]) else s
  }

  /** Drop leading white space. */
  function LStrip(s: string): string {
    if s != "" && IsSpace(s[0]) then LStrip(s[1..]) else s
  }

  function JoinLines(texts: seq<string>): string {
    if texts == [] then ""
    else if |texts| == 1 then texts[0]
    else texts[0] + "\n" + JoinLines(texts[1..])
  }

  function RowTexts(rows: seq<Node>): seq<string> {
    seq(|rows|, i requires 0 <= i < |rows| => RStripBreaks(rows[i].text))
  }

  datatype TableShape = TableShape(header: Node, caption: Option<Node>, captionBefore: bool, rows: seq<Node>)

  /** Header, caption and rows; None without a reliable row structure. */
  function ShapeOf(node: Node): Option<TableShape> {
    var headers := OfKind(node.children, TableHeader);
    var rows := OfKind(node.children, TableRow);
    var captions := OfKind(node.children, Paragraph);
    if headers == [] || rows == [] || node.tableHeader == "" then None
    else if captions == [] then Some(TableShape(headers[0], None, false, rows))
    else Some(TableShape(headers[0], Some(captions[0]), LStrip(captions[0].text) <= LStrip(node.text), rows))
  }

  /** Part number index: the header with the rows, and in part 0 the caption. */
  function TablePart(node: Node, t: TableShape, group: seq<Node>, index: nat): Node {
    var texts := [node.tableHeader] + RowTexts(group);
    var children := [t.header] + group;
    var withCaption := t.caption.Some? && index == 0;
    var texts' :=
      if !withCaption then texts
      else if t.captionBefore then [RStripBreaks(t.caption.value.text)] + texts
      else texts + [RStripBreaks(t.caption.value.text)];
    var children' :=
      if !withCaption then children
      else if t.captionBefore then [t.caption.value] + children
      else children + [t.caption.value];
    node.(id := PartOf(node.id, index), text := JoinLines(texts'), children := children', span := CoverAll(children'))
  }

  function TableBudget(p: Policy, node: Node, t: TableShape): Budget<Node> {
    Budget((i, group) => p.count(TablePart(node, t, group, i).text), (row: Node) => p.count(row.text),
           p.target, p.threshold)
  }

  function TableParts(p: Policy, node: Node): seq<Node> {
    var t := ShapeOf(node);
    if t.None? then [node]
    else
      var groups := Groups(TableBudget(p, node, t.value), t.value.rows);
      seq(|groups|, i requires 0 <= i < |groups| => TablePart(node, t.value, groups[i], i))
  }

  lemma TableDecision(p: Policy, node: Node, t: TableShape, i: nat, current: seq<Node>, row: Node)
    ensures Joins(TableBudget(p, node, t), i, current, row) <==>
      p.count(row.text) <= p.threshold
      && p.Append(p.count(TablePart(node, t, current, i).text), p.count(TablePart(node, t, current + [row], i).text))
  {
  }

  ghost predicate AreTableParts(node: Node, t: TableShape, parts: seq<Node>, groups: seq<seq<Node>>) {
    && |parts| == |groups|
    && forall i {:trigger parts[i]} :: 0 <= i < |parts| ==> parts[i] == TablePart(node, t, groups[i], i)
  }

  /** The loop over the rows; the next part's number decides whether it carries the caption. */
  method GroupRows(p: Policy, node: Node, t: TableShape) returns (parts: seq<Node>)
    requires p.Valid()
    ensures AreTableParts(node, t, parts, Groups(TableBudget(p, node, t), t.rows))
  {
    hide Joins, TablePart, Groups, Running;
    ghost var b := TableBudget(p, node, t);
    RunStarts(b, t.rows);
    ghost var groups: seq<seq<Node>> := [];
    parts := [];
    var current: seq<Node> := [];
    var i := 0;
    while i < |t.rows|
      invariant i <= |t.rows| && AreTableParts(node, t, parts, groups)
      invariant Running(b, t.rows, groups, current, i)
    {
      var row := t.rows[i];
      TableDecision(p, node, t, |parts|, current, row);
      RunTakes(b, t.rows, groups, current, i);
      assert [] + [row] == [row];
      var candidate := TablePart(node, t, current + [row], |parts|);
      if current != [] && (p.count(row.text) > p.threshold
                           || !p.Append(p.count(TablePart(node, t, current, |parts|).text), p.count(candidate.text))) {
        parts := parts + [TablePart(node, t, current, |parts|)];
        groups := groups + [current];
        current := [];
      }
      current := current + [row];
      if p.count(TablePart(node, t, current, |parts|).text) > p.threshold {
        RunSeals(b, t.rows, groups, current, i + 1);
        parts := parts + [TablePart(node, t, current, |parts|)];
        groups := groups + [current];
        current := [];
      }
      i := i + 1;
    }
    RunEnds(b, t.rows, groups, current);
    if current != [] {
      parts := parts + [TablePart(node, t, current, |parts|)];
    }
  }

  method SplitTable(p: Policy, node: Node) returns (parts: seq<Node>)
    requires p.Valid()
    ensures parts == TableParts(p, node)
  {
    var t := ShapeOf(node);
    if t.None? {
      return [node];
    }
    parts := GroupRows(p, node, t.value);
  }

  /** Split tables keep every row once and in order; each part has exactly one header, the whole
      table's; the caption is in part 0 and nowhere else; and a part is over the hard threshold only
      when it has a single row. */
  lemma TablePartsCarryTheTable(p: Policy, node: Node, i: nat)
    requires p.Valid() && ShapeOf(node).Some?
    requires i < |TableParts(p, node)|
    ensures var t := ShapeOf(node).value;
      var groups := Groups(TableBudget(p, node, t), t.rows);
      var part := TableParts(p, node)[i];
      && Flatten(groups) == OfKind(node.children, TableRow)
      && OfKind(part.children, TableRow) == groups[i] != []
      && OfKind(part.children, TableHeader) == [t.header]
      && OfKind(part.children, Paragraph) == (if i == 0 && t.caption.Some? then [t.caption.value] else [])
      && (p.count(part.text) > p.threshold ==> |groups[i]| == 1)
  {
    var t := ShapeOf(node).value;
    var b := TableBudget(p, node, t);
    var groups := Groups(b, t.rows);
    var g := groups[i];
    GreedyCharacterisation(b, t.rows, groups);
    PackingLaw(b, t.rows, i);
    FlattenMembers(groups, i);
    ShapeKinds(node);
    assert TableParts(p, node)[i] == TablePart(node, t, g, i);
    assert b.size(i, g) == p.count(TablePart(node, t, g, i).text);
    hide OfKind, Groups, TablePart, ShapeOf;
    ChildrenOfPart(node, t, g, i, TableRow);
    ChildrenOfPart(node, t, g, i, TableHeader);
    ChildrenOfPart(node, t, g, i, Paragraph);
  }

  lemma ShapeKinds(node: Node)
    requires ShapeOf(node).Some?
    ensures var t := ShapeOf(node).value;
      && t.header.kind == TableHeader && (t.caption.Some? ==> t.caption.value.kind == Paragraph)
      && t.rows == OfKind(node.children, TableRow) && forall n :: n in t.rows ==> n.kind == TableRow
  {
    FilterMembers(node.children, (n: Node) => n.kind == TableRow);
    FilterMembers(node.children, (n: Node) => n.kind == TableHeader);
    FilterMembers(node.children, (n: Node) => n.kind == Paragraph);
    var t := ShapeOf(node).value;
    assert t.header in OfKind(node.children, TableHeader);
    assert t.caption.Some? ==> t.caption.value in OfKind(node.children, Paragraph);
  }

  /** Row k took part i, its header and caption included, no further from the target. */
  ghost predicate RowGrowsAt(p: Policy, node: Node, t: TableShape, g: seq<Node>, i: nat, k: nat)
    requires k < |g|
  {
    var s, c := p.count(TablePart(node, t, g[..k], i).text), p.count(TablePart(node, t, g[..k] + [g[k]], i).text);
    s < p.target && s <= c <= 2 * p.target - s && c <= p.threshold && p.count(g[k].text) <= p.threshold
  }

  ghost predicate PartMustEnd(p: Policy, node: Node, t: TableShape, g: seq<Node>, i: nat, next: Node) {
    var s, c := p.count(TablePart(node, t, g, i).text), p.count(TablePart(node, t, g + [next], i).text);
    p.count(next.text) > p.threshold || s >= p.target || c > p.threshold || c < s || c > 2 * p.target - s
  }

  /** Neighbouring table parts are greedy: rows were added while that took the part, its header and caption
      included, no further from the target, and the next row had to go into a part of its own. */
  lemma TablePartsAreGreedy(p: Policy, node: Node, i: nat)
    requires p.Valid() && ShapeOf(node).Some?
    requires i < |TableParts(p, node)|
    ensures var t := ShapeOf(node).value;
      var groups := Groups(TableBudget(p, node, t), t.rows);
      && TableParts(p, node)[i] == TablePart(node, t, groups[i], i)
      && TableParts(p, node)[i].id == PartOf(node.id, i)
      && TableParts(p, node)[i].span == CoverAll(TableParts(p, node)[i].children)
      && (forall k: nat :: 1 <= k < |groups[i]| ==> RowGrowsAt(p, node, t, groups[i], i, k))
      && (i + 1 < |groups| ==> groups[i + 1] != [] && PartMustEnd(p, node, t, groups[i], i, groups[i + 1][0]))
  {
    var t := ShapeOf(node).value;
    var groups := Groups(TableBudget(p, node, t), t.rows);
    var part := TableParts(p, node)[i];
    assert part.id == PartOf(node.id, i) && part.span == CoverAll(part.children);
    hide RowGrowsAt, PartMustEnd, TablePart, CoverAll, ShapeOf;
    forall k: nat | 1 <= k < |groups[i]|
      ensures RowGrowsAt(p, node, t, groups[i], i, k)
    {
      RowGrows(p, node, t, i, k);
    }
    if i + 1 < |groups| { TablePartMustEnd(p, node, t, i); }
  }

  lemma RowGrows(p: Policy, node: Node, t: TableShape, i: nat, k: nat)
    requires i < |Groups(TableBudget(p, node, t), t.rows)|
    requires 1 <= k < |Groups(TableBudget(p, node, t), t.rows)[i]|
    ensures RowGrowsAt(p, node, t, Groups(TableBudget(p, node, t), t.rows)[i], i, k)
  {
    var b := TableBudget(p, node, t);
    var g := Groups(b, t.rows)[i];
    PackingLaw(b, t.rows, i);
    hide Groups, TablePart;
    assert b.size(i, g[..k]) == p.count(TablePart(node, t, g[..k], i).text);
    assert b.size(i, g[..k] + [g[k]]) == p.count(TablePart(node, t, g[..k] + [g[k]], i).text);
  }

  lemma TablePartMustEnd(p: Policy, node: Node, t: TableShape, i: nat)
    requires i + 1 < |Groups(TableBudget(p, node, t), t.rows)|
    ensures var groups := Groups(TableBudget(p, node, t), t.rows);
      groups[i + 1] != [] && PartMustEnd(p, node, t, groups[i], i, groups[i + 1][0])
  {
    var b := TableBudget(p, node, t);
    var g, next := Groups(b, t.rows)[i], Groups(b, t.rows)[i + 1];
    PackingLaw(b, t.rows, i);
    hide Groups, TablePart;
    assert b.size(i, g) == p.count(TablePart(node, t, g, i).text);
    assert b.size(i, g + [next[0]]) == p.count(TablePart(node, t, g + [next[0]], i).text);
  }

  /** When a table can be split, and by what: its first header child, all its rows, its first paragraph as
      the caption - above the table if and only if the table's text begins with it. */
  lemma ShapeIs(node: Node)
    ensures ShapeOf(node).None? <==>
      (forall n :: n in node.children ==> n.kind != TableHeader)
      || (forall n :: n in node.children ==> n.kind != TableRow)
      || node.tableHeader == ""
    ensures ShapeOf(node).Some? ==>
      var t := ShapeOf(node).value;
      && t.rows == OfKind(node.children, TableRow)
      && [t.header] <= OfKind(node.children, TableHeader)
      && (t.caption.None? <==> forall n :: n in node.children ==> n.kind != Paragraph)
      && (t.caption.Some? ==>
            && [t.caption.value] <= OfKind(node.children, Paragraph)
            && (t.captionBefore <==> LStrip(t.caption.value.text) <= LStrip(node.text)))
  {
    NoneOfKind(node.children, TableHeader);
    NoneOfKind(node.children, TableRow);
    NoneOfKind(node.children, Paragraph);
    hide OfKind, LStrip;
  }

  lemma NoneOfKind(nodes: seq<Node>, kind: Kind)
    ensures OfKind(nodes, kind) == [] <==> forall n :: n in nodes ==> n.kind != kind
  {
    FilterMembers(nodes, (n: Node) => n.kind == kind);
    var some := OfKind(nodes, kind);
    if some != [] { assert some[0] in some; }
  }

  /** The text of a table part: the caption above the header or below the rows, in part 0 only; the header
      line; and each row on a line of its own. */
  lemma TablePartText(node: Node, t: TableShape, g: seq<Node>, i: nat)
    ensures var caption := if t.caption.Some? && i == 0 then Some(RStripBreaks(t.caption.value.text)) else None;
      TablePart(node, t, g, i).text
      == (if caption.Some? && t.captionBefore then caption.value + "\n" else "")
         + (node.tableHeader + Concat(seq(|g|, k requires 0 <= k < |g| => "\n" + RStripBreaks(g[k].text))))
         + (if caption.Some? && !t.captionBefore then "\n" + caption.value else "")
  {
    var table := [node.tableHeader] + RowTexts(g);
    TableLines(node, g);
    var text := JoinLines(table);
    if t.caption.Some? && i == 0 {
      var caption := RStripBreaks(t.caption.value.text);
      WithCaption(table, caption);
      hide JoinLines, RStripBreaks, Concat, CoverAll;
      assert caption + "\n" + text + "" == caption + "\n" + text;
      assert "" + text + ("\n" + caption) == text + "\n" + caption;
    } else {
      hide JoinLines, RStripBreaks, Concat, CoverAll;
      assert "" + text + "" == text;
    }
  }

  lemma TableLines(node: Node, g: seq<Node>)
    ensures JoinLines([node.tableHeader] + RowTexts(g))
         == node.tableHeader + Concat(seq(|g|, k requires 0 <= k < |g| => "\n" + RStripBreaks(g[k].text)))
  {
    var rows, lines := RowTexts(g), seq(|g|, k requires 0 <= k < |g| => "\n" + RStripBreaks(g[k].text));
    assert lines == seq(|rows|, k requires 0 <= k < |rows| => "\n" + rows[k]);
    hide RowTexts, RStripBreaks, JoinLines, Concat;
    JoinLinesIs(node.tableHeader, rows);
  }

  lemma WithCaption(table: seq<string>, caption: string)
    requires table != []
    ensures JoinLines([caption] + table) == caption + "\n" + JoinLines(table)
    ensures JoinLines(table + [caption]) == JoinLines(table) + "\n" + caption
  {
    assert ([caption] + table)[1..] == table;
    JoinLinesEnds(table, caption);
  }

  lemma {:induction false} JoinLinesIs(first: string, rest: seq<string>)
    ensures JoinLines([first] + rest) == first + Concat(seq(|rest|, k requires 0 <= k < |rest| => "\n" + rest[k]))
    decreases |rest|
  {
    var lines := seq(|rest|, k requires 0 <= k < |rest| => "\n" + rest[k]);
    if rest == [] {
      assert Concat(lines) == "";
    } else {
      var later := rest[1..];
      JoinLinesIs(rest[0], later);
      assert ([first] + rest)[1..] == [rest[0]] + later == rest;
      assert lines[1..] == seq(|later|, k requires 0 <= k < |later| => "\n" + later[k]);
    }
  }

  lemma {:induction false} JoinLinesEnds(lines: seq<string>, last: string)
    requires lines != []
    ensures JoinLines(lines + [last]) == JoinLines(lines) + "\n" + last
    decreases |lines|
  {
    var all := lines + [last];
    assert all[1..] == lines[1..] + [last];
    if |lines| > 1 { JoinLinesEnds(lines[1..], last); }
  }

  /** Stripping takes off exactly the line breaks at the end, or the white space at the start. */
  lemma {:induction false} RStripBreaksIs(s: string)
    ensures var r := RStripBreaks(s);
      && r <= s && (r == "" || (r[|r| - 1] != '\r' && r[|r| - 1] != '\n'))
      && forall i :: |r| <= i < |s| ==> s[i] == '\r' || s[i] == '\n'
  {
    if s != "" && (s[|s| - 1] == '\r' || s[|s| - 1] == '\n') { RStripBreaksIs(s[..|s| - 1]); }
  }

  lemma {:induction false} LStripIs(s: string)
    ensures var r := LStrip(s);
      && |r| <= |s| && r == s[|s| - |r|..] && (r == "" || !IsSpace(r[0])) && Blank(s[..|s| - |r|])
  {
    if s != "" && IsSpace(s[0]) { LStripIs(s[1..]); }
  }

  lemma ChildrenOfPart(node: Node, t: TableShape, g: seq<Node>, i: nat, kind: Kind)
    requires t.header.kind == TableHeader && (t.caption.Some? ==> t.caption.value.kind == Paragraph)
    requires forall n :: n in g ==> n.kind == TableRow
    ensures OfKind(TablePart(node, t, g, i).children, kind)
         == (if kind == Paragraph && i == 0 && t.caption.Some? then [t.caption.value] else [])
            + (if kind == TableHeader then [t.header] else [])
            + (if kind == TableRow then g else [])
  {
    var core := [t.header] + g;
    var f := (n: Node) => n.kind == kind;
    if kind == TableRow { FilterAll(g, f); } else { FilterNone(g, f); }
    FilterSplits([t.header], g, f);
    FilterOne(t.header, f);
    if t.caption.Some? {
      FilterOne(t.caption.value, f);
      FilterSplits([t.caption.value], core, f);
      FilterSplits(core, [t.caption.value], f);
    }
  }

  // ---------------------------------------------------------------------------------------
  // Text
  // ---------------------------------------------------------------------------------------

  /** The semantic pieces, blank ones skipped, those still over the target cut by the tokenizer. */
  function PiecesOf(p: Policy, pieces: seq<string>): Result<seq<string>> {
    if pieces == [] then Ok([])
    else
      var head := FittingPieces(p, pieces[0]);
      var rest := PiecesOf(p, pieces[1..]);
      if head.Err? then head else if rest.Err? then rest else Ok(head.value + rest.value)
  }

  function FittingPieces(p: Policy, piece: string): Result<seq<string>> {
    if Blank(piece) then Ok([])
    else if p.count(piece) > p.target then Tokenizing.SplitText(p.count, piece, p.target)
    else Ok([piece])
  }

  function TextPart(node: Node, text: string, index: nat): Node {
    node.(id := PartOf(node.id, index), text := text, children := [], span := None)
  }

  function TextParts(p: Policy, chunkText: string -> seq<string>, node: Node): Result<seq<Node>> {
    var texts := PiecesOf(p, chunkText(node.text));
    if texts.Err? then Err(texts.error)
    else Ok(seq(|texts.value|, i requires 0 <= i < |texts.value| => TextPart(node, texts.value[i], i)))
  }

  /** Some character of the piece alone exceeds the soft target. */
  ghost predicate HoldsTooBig(p: Policy, piece: string) {
    exists i :: 0 <= i < |piece| && p.count([piece[i]]) > p.target
  }

  ghost predicate FitOrTooBig(p: Policy, pieces: seq<string>, r: Result<seq<string>>) {
    match r
    case Ok(texts) => forall k :: 0 <= k < |texts| ==> p.count(texts[k]) <= p.target
    case Err(_) => exists piece :: piece in pieces && HoldsTooBig(p, piece)
  }

  lemma PieceFits(p: Policy, piece: string)
    requires p.Valid()
    ensures FitOrTooBig(p, [piece], FittingPieces(p, piece))
  {
    Tokenizing.PiecesSpellTheText(p.count, piece, p.target, 0);
    if FittingPieces(p, piece).Err? {
      var i: nat :| i < |piece| && p.count([piece[i]]) > p.target;
      assert piece in [piece] && HoldsTooBig(p, piece);
    }
  }

  lemma {:induction false} PiecesFit(p: Policy, pieces: seq<string>)
    requires p.Valid()
    ensures FitOrTooBig(p, pieces, PiecesOf(p, pieces))
  {
    hide HoldsTooBig, FittingPieces;
    if pieces != [] {
      PieceFits(p, pieces[0]);
      PiecesFit(p, pieces[1..]);
      assert forall piece :: piece in pieces[1..] ==> piece in pieces;
      assert pieces[0] in pieces;
    }
  }

  // ---------------------------------------------------------------------------------------
  // All kinds
  // ---------------------------------------------------------------------------------------

  function Split(p: Policy, chunkText: string -> seq<string>, node: Node): Result<seq<Node>> {
    if p.count(node.text) <= p.threshold then Ok([node])
    else match node.kind
      case Paragraph => TextParts(p, chunkText, node)
      case Quote => TextParts(p, chunkText, node)
      case Bullets => Ok(ListParts(p, node))
      case Table => Ok(TableParts(p, node))
      case Code => Ok(CodeParts(p, node))
      case _ => Ok([node])
  }

  /** Paragraphs and quotes never leave a unit over the hard threshold; the split fails only when
      one of the semantic pieces of the text holds a character that alone is over the soft target. */
  lemma TextNeverOverflows(p: Policy, chunkText: string -> seq<string>, node: Node)
    requires p.Valid() && (node.kind == Paragraph || node.kind == Quote)
    ensures match Split(p, chunkText, node)
      case Ok(units) => forall k :: 0 <= k < |units| ==> p.count(units[k].text) <= p.threshold
      case Err(_) => exists piece :: piece in chunkText(node.text) && HoldsTooBig(p, piece)
  {
    PiecesFit(p, chunkText(node.text));
  }

  /** What prose over the threshold is split into loses nothing but blank pieces: the semantic pieces that
      are not blank are the units' texts in order, a piece within the target as a unit of its own, a longer
      one cut into several that spell it. */
  lemma ProseKeepsItsText(p: Policy, chunkText: string -> seq<string>, node: Node) returns (runs: seq<seq<string>>)
    requires p.Valid() && (node.kind == Paragraph || node.kind == Quote) && p.count(node.text) > p.threshold
    requires Split(p, chunkText, node).Ok?
    ensures
      var units := Split(p, chunkText, node).value;
      var texts := seq(|units|, k requires 0 <= k < |units| => units[k].text);
      var kept := Filter(chunkText(node.text), (s: string) => !Blank(s));
      && Flatten(runs) == texts && |runs| == |kept|
      && (forall k {:trigger runs[k]} :: 0 <= k < |runs| ==>
            Concat(runs[k]) == kept[k] && (p.count(kept[k]) <= p.target ==> runs[k] == [kept[k]]))
      && Concat(texts) == Concat(kept)
      && forall k :: 0 <= k < |units| ==> units[k] == node.(id := PartOf(node.id, k), text := texts[k],
                                                           children := [], span := None)
  {
    var pieces := chunkText(node.text);
    var units := Split(p, chunkText, node).value;
    var kept := Filter(pieces, (s: string) => !Blank(s));
    runs := PiecesAreKept(p, pieces);
    assert seq(|units|, k requires 0 <= k < |units| => units[k].text) == PiecesOf(p, pieces).value;
    hide PiecesOf, Filter, Split;
    ConcatRuns(runs, kept);
  }

  lemma {:induction false} PiecesAreKept(p: Policy, pieces: seq<string>) returns (runs: seq<seq<string>>)
    requires p.Valid() && PiecesOf(p, pieces).Ok?
    ensures
      var kept := Filter(pieces, (s: string) => !Blank(s));
      && Flatten(runs) == PiecesOf(p, pieces).value && |runs| == |kept|
      && forall k {:trigger runs[k]} :: 0 <= k < |runs| ==>
           Concat(runs[k]) == kept[k] && (p.count(kept[k]) <= p.target ==> runs[k] == [kept[k]])
  {
    if pieces == [] {
      runs := [];
    } else {
      var later := PiecesAreKept(p, pieces[1..]);
      var head := FittingPieces(p, pieces[0]).value;
      FilterFirst(pieces, (s: string) => !Blank(s));
      PieceIsKept(p, pieces[0]);
      hide Filter, FittingPieces;
      if Blank(pieces[0]) {
        runs := later;
      } else {
        runs := [head] + later;
        assert runs[1..] == later;
      }
    }
  }

  lemma PieceIsKept(p: Policy, piece: string)
    requires p.Valid() && FittingPieces(p, piece).Ok?
    ensures
      var r := FittingPieces(p, piece).value;
      if Blank(piece) then r == []
      else Concat(r) == piece && (p.count(piece) <= p.target ==> r == [piece])
  {
    Tokenizing.PiecesSpellTheText(p.count, piece, p.target, 0);
    ConcatOne(piece);
    assert piece[0..] == piece;
  }

  lemma {:induction false} ConcatRuns(runs: seq<seq<string>>, kept: seq<string>)
    requires |runs| == |kept| && forall k {:trigger runs[k]} :: 0 <= k < |runs| ==> Concat(runs[k]) == kept[k]
    ensures Concat(Flatten(runs)) == Concat(kept)
  {
    if runs != [] {
      ConcatRuns(runs[1..], kept[1..]);
      ConcatSplits(runs[0], Flatten(runs[1..]));
    }
  }

  /** A node within the threshold stays whole, and so does every node that is no prose, list, table or
      code. */
  lemma SplitLeavesWhole(p: Policy, chunkText: string -> seq<string>, node: Node)
    requires
      || p.count(node.text) <= p.threshold
      || node.kind !in {Paragraph, Quote, Bullets, Table, Code}
      || (node.kind == Bullets && OfKind(node.children, BulletItem) == [])
      || (node.kind == Table && ShapeOf(node).None?)
    ensures Split(p, chunkText, node) == Ok([node])
  {
  }

  predicate Prose(n: Node) { n.kind == Paragraph || n.kind == Quote }

  /** Splitting keeps the kind of a node; so what prose is split into is prose, and nothing else is. */
  lemma SplitKeepsKind(p: Policy, chunkText: string -> seq<string>, node: Node)
    requires p.Valid() && Split(p, chunkText, node).Ok?
    ensures forall u :: u in Split(p, chunkText, node).value ==>
      u.kind == node.kind && (Prose(u) ==> p.count(u.text) <= p.threshold)
  {
    if Prose(node) { TextNeverOverflows(p, chunkText, node); }
  }

  /** A split list keeps every item once and in order, and a part is over the threshold exactly when
      it is one item that is too big by itself. */
  lemma ListPartsCarryTheItems(p: Policy, node: Node, i: nat)
    requires p.Valid() && OfKind(node.children, BulletItem) != [] && i < |ListParts(p, node)|
    ensures var items := OfKind(node.children, BulletItem);
      var groups := Groups(PackBudget(p), items);
      && Flatten(groups) == items
      && ListParts(p, node)[i].children == groups[i] != []
      && ListParts(p, node)[i].text == JoinTexts(groups[i]) && ListParts(p, node)[i].id == PartOf(node.id, i)
      && ListParts(p, node)[i].span == CoverAll(groups[i])
      && (p.count(ListParts(p, node)[i].text) > p.threshold <==> HasOversized(p, groups[i]))
      && (HasOversized(p, groups[i]) ==> |groups[i]| == 1)
  {
    var groups := Groups(PackBudget(p), OfKind(node.children, BulletItem));
    PackingIsAPartition(p, OfKind(node.children, BulletItem));
    assert groups[i] == groups[i];
  }

  /** Neighbouring list parts are greedy, as neighbouring chunks are. */
  lemma ListPartsAreGreedy(p: Policy, node: Node, i: nat)
    requires p.Valid() && OfKind(node.children, BulletItem) != [] && i < |ListParts(p, node)|
    ensures
      var parts := ListParts(p, node);
      && (forall k: nat :: 1 <= k < |parts[i].children| ==> GrowsAt(p, parts[i].children, k))
      && (i + 1 < |parts| ==>
            parts[i + 1].children != [] && MustEnd(p, parts[i].children, parts[i + 1].children[0]))
  {
    hide JoinTexts, OfKind, Groups, GrowsAt, MustEnd;
    ChunksAreGreedy(p, OfKind(node.children, BulletItem), i);
  }

  /** Over the threshold a list is cut between its items, a table between its rows, and code between its
      lines; the parts hold all of them in order. */
  lemma SplitKeepsTheStructure(p: Policy, chunkText: string -> seq<string>, node: Node)
    requires p.Valid() && p.count(node.text) > p.threshold
    requires node.kind in {Bullets, Table, Code}
    ensures Split(p, chunkText, node).Ok?
    ensures
      var units := Split(p, chunkText, node).value;
      && (node.kind == Bullets && OfKind(node.children, BulletItem) != [] ==>
            Flatten(seq(|units|, k requires 0 <= k < |units| => units[k].children))
            == OfKind(node.children, BulletItem))
      && (node.kind == Table && ShapeOf(node).Some? ==>
            Flatten(seq(|units|, k requires 0 <= k < |units| => OfKind(units[k].children, TableRow)))
            == OfKind(node.children, TableRow))
      && (node.kind == Code ==> units == CodeParts(p, node))
  {
    if node.kind == Bullets && OfKind(node.children, BulletItem) != [] {
      ListChildren(p, node);
    } else if node.kind == Table && ShapeOf(node).Some? {
      TableChildren(p, node);
    }
  }

  lemma ListChildren(p: Policy, node: Node)
    requires p.Valid() && OfKind(node.children, BulletItem) != []
    ensures var parts := ListParts(p, node);
      Flatten(seq(|parts|, k requires 0 <= k < |parts| => parts[k].children)) == OfKind(node.children, BulletItem)
  {
    var items, parts := OfKind(node.children, BulletItem), ListParts(p, node);
    PackingIsAPartition(p, items);
    hide OfKind, JoinTexts, Groups, Flatten;
    assert seq(|parts|, k requires 0 <= k < |parts| => parts[k].children) == Groups(PackBudget(p), items);
  }

  lemma TableChildren(p: Policy, node: Node)
    requires p.Valid() && ShapeOf(node).Some?
    ensures var parts := TableParts(p, node);
      Flatten(seq(|parts|, k requires 0 <= k < |parts| => OfKind(parts[k].children, TableRow)))
      == OfKind(node.children, TableRow)
  {
    var t, parts := ShapeOf(node).value, TableParts(p, node);
    var b := TableBudget(p, node, t);
    var groups := Groups(b, t.rows);
    var rows := seq(|parts|, k requires 0 <= k < |parts| => OfKind(parts[k].children, TableRow));
    GreedyCharacterisation(b, t.rows, groups);
    assert |parts| == |groups|;
    forall k | 0 <= k < |parts| ensures OfKind(parts[k].children, TableRow) == groups[k] {
      TablePartsCarryTheTable(p, node, k);
    }
    hide OfKind, Groups, Flatten;
    assert rows == groups;
  }
}
