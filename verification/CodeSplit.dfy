/** Splitting code by whole lines, rebuilding the fence around every part. */
module CodeSplitting {
  import opened Sequences
  import opened Markdown
  import opened Grouping
  import opened Packing

  // ---------------------------------------------------------------------------------------
  // Lines, cut after LF only
  // ---------------------------------------------------------------------------------------

  /** One past the first LF, or the end. */
  function LineEnd(text: string): (r: nat)
    requires text != ""
    ensures 1 <= r <= |text|
  {
    if text[0] == '\n' || |text| == 1 then 1 else 1 + LineEnd(text[1..])
  }

  function Lines(text: string): seq<string>
    decreases |text|
  {
    if text == "" then [] else [text[..LineEnd(text)]] + Lines(text[LineEnd(text)..])
  }

  predicate EndsLine(s: string) { s != "" && s[|s| - 1] == '\n' }

  /** At most one LF, at the end. */
  predicate IsLine(s: string) {
    s != "" && forall i :: 0 <= i < |s| - 1 ==> s[i] != '\n'
  }

  /** A sequence of lines as Lines produces it: only the last may lack its LF. */
  ghost predicate Lined(ls: seq<string>) {
    && (forall i :: 0 <= i < |ls| ==> IsLine(ls[i]))
    && (forall i :: 0 <= i < |ls| - 1 ==> EndsLine(ls[i]))
  }

  lemma {:induction false} LineEndSpec(text: string)
    requires text != ""
    ensures IsLine(text[..LineEnd(text)])
    ensures LineEnd(text) < |text| ==> EndsLine(text[..LineEnd(text)])
  {
    if text[0] != '\n' && |text| > 1 {
      LineEndSpec(text[1..]);
      assert text[..LineEnd(text)] == [text[0]] + text[1..][..LineEnd(text[1..])];
    }
  }

  lemma LinedCons(first: string, rest: seq<string>)
    requires IsLine(first) && (rest == [] || EndsLine(first)) && Lined(rest)
    ensures Lined([first] + rest)
  {
    hide IsLine, EndsLine;
  }

  lemma {:induction false} LinesSpec(text: string)
    ensures Lined(Lines(text)) && Concat(Lines(text)) == text
    decreases |text|
  {
    if text != "" {
      var e := LineEnd(text);
      LineEndSpec(text);
      LinesSpec(text[e..]);
      hide LineEnd, Lined, IsLine, EndsLine;
      LinedCons(text[..e], Lines(text[e..]));
      assert text == text[..e] + text[e..];
      assert Lines(text)[1..] == Lines(text[e..]);
    }
  }

  lemma {:induction false} LineEndOf(line: string, rest: string)
    requires IsLine(line) && (EndsLine(line) || rest == "")
    ensures LineEnd(line + rest) == |line|
  {
    if |line| > 1 {
      assert (line + rest)[1..] == line[1..] + rest;
      LineEndOf(line[1..], rest);
    }
  }

  lemma {:induction false} LinesOfConcat(ls: seq<string>)
    requires Lined(ls)
    ensures Lines(Concat(ls)) == ls
  {
    if ls != [] {
      var rest := ls[1..];
      LinesOfConcat(rest);
      if rest == [] { assert Concat(rest) == ""; }
      LineEndOf(ls[0], Concat(rest));
      var text := Concat(ls);
      assert text == ls[0] + Concat(rest);
      assert text[..|ls[0]|] == ls[0] && text[|ls[0]|..] == Concat(rest);
    }
  }

  // ---------------------------------------------------------------------------------------
  // Fences
  // ---------------------------------------------------------------------------------------

  predicate AllOf(s: string, c: char) { forall i :: 0 <= i < |s| ==> s[i] == c }

  predicate NoBreaks(s: string) { forall i :: 0 <= i < |s| ==> s[i] != '\r' && s[i] != '\n' }

  /** [^\r\n]*\r?\n */
  predicate RestOfLine(s: string) {
    && EndsLine(s)
    && var body := s[..|s| - 1];
       NoBreaks(if body != "" && body[|body| - 1] == '\r' then body[..|body| - 1] else body)
  }

  predicate OpensAt(markup: string, line: string, k: nat) {
    && k <= 3 && k + |markup| <= |line|
    && AllOf(line[..k], ' ') && line[k..k + |markup|] == markup
    && RestOfLine(line[k + |markup|..])
  }

  /** Up to three blanks, the markup, the rest of the line. */
  predicate IsOpening(markup: string, line: string) {
    OpensAt(markup, line, 0) || OpensAt(markup, line, 1) || OpensAt(markup, line, 2) || OpensAt(markup, line, 3)
  }

  /** k blanks, fence characters up to e, blanks and tabs up to t, an optional line break. */
  predicate ClosesAt(markup: string, line: string, k: nat, e: nat, t: nat)
    requires markup != ""
  {
    && k <= 3 && k + |markup| <= e <= t <= |line|
    && AllOf(line[..k], ' ') && AllOf(line[k..e], markup[0])
    && (forall i :: e <= i < t ==> line[i] == ' ' || line[i] == '\t')
    && (line[t..] == "" || line[t..] == "\n" || line[t..] == "\r" || line[t..] == "\r\n")
  }

  predicate IsClosing(markup: string, line: string)
    requires markup != ""
  {
    exists k: nat, e: nat, t: nat :: k <= 3 && e <= |line| && t <= |line| && ClosesAt(markup, line, k, e, t)
  }

  /** A fence around a body: both parts empty for unfenced code; the closing part is synthetic when
      the source was not closed. */
  datatype Peeled = Peeled(opening: string, closing: string, synthetic: bool, body: seq<string>)

  function NewlineOf(opening: string): string {
    if |opening| >= 2 && opening[|opening| - 2..] == "\r\n" then "\r\n" else "\n"
  }

  /** Separate the fence from the body lines; None when there is no legal opening line. */
  function Peel(fenced: bool, markup: string, text: string): Option<Peeled> {
    var lines := Lines(text);
    if !fenced then Some(Peeled("", "", false, lines))
    else if lines == [] || markup == "" || !IsOpening(markup, lines[0]) then None
    else
      var rest := lines[1..];
      if rest != [] && IsClosing(markup, rest[|rest| - 1]) then
        Some(Peeled(lines[0], rest[|rest| - 1], false, rest[..|rest| - 1]))
      else
        Some(Peeled(lines[0], markup + NewlineOf(lines[0]), true, rest))
  }

  function Render(f: Peeled, body: seq<string>): string {
    var text := Concat(body);
    f.opening + (if f.closing != "" && !EndsLine(text) then text + NewlineOf(f.opening) else text) + f.closing
  }

  function CodeBudget(p: Policy, f: Peeled): Budget<string> {
    Budget((i, group) => p.count(Render(f, group)), line => p.count(Render(f, [line])), p.target, p.threshold)
  }

  function CodePart(node: Node, f: Peeled, group: seq<string>, index: nat): Node {
    node.(id := PartOf(node.id, index), text := Render(f, group), children := [], span := None)
  }

  /** The whole split: the node itself when its fence is illegal or it has no body. */
  function CodeParts(p: Policy, node: Node): (parts: seq<Node>)
  {
    var f := Peel(node.fenced, node.markup, node.text);
    if f.None? || f.value.body == [] then [node]
    else
      var groups := Groups(CodeBudget(p, f.value), f.value.body);
      seq(|groups|, i requires 0 <= i < |groups| => CodePart(node, f.value, groups[i], i))
  }

  lemma CodeDecision(p: Policy, f: Peeled, i: nat, current: seq<string>, line: string)
    ensures Joins(CodeBudget(p, f), i, current, line) <==>
      p.count(Render(f, [line])) <= p.threshold
      && p.Append(p.count(Render(f, current)), p.count(Render(f, current + [line])))
  {
  }

  /** The loop over the body lines. */
  method GroupLines(p: Policy, f: Peeled) returns (bodies: seq<seq<string>>)
    requires p.Valid()
    ensures bodies == Groups(CodeBudget(p, f), f.body)
  {
    hide Render, Joins, Groups, Running;
    ghost var b := CodeBudget(p, f);
    RunStarts(b, f.body);
    bodies := [];
    var current: seq<string> := [];
    var i := 0;
    while i < |f.body|
      invariant i <= |f.body| && Running(b, f.body, bodies, current, i)
    {
      var line := f.body[i];
      CodeDecision(p, f, |bodies|, current, line);
      RunTakes(b, f.body, bodies, current, i);
      assert [] + [line] == [line];
      if current != [] && (p.count(Render(f, [line])) > p.threshold
                           || !p.Append(p.count(Render(f, current)), p.count(Render(f, current + [line])))) {
        bodies := bodies + [current];
        current := [];
      }
      current := current + [line];
      if p.count(Render(f, current)) > p.threshold {
        RunSeals(b, f.body, bodies, current, i + 1);
        bodies := bodies + [current];
        current := [];
      }
      i := i + 1;
    }
    RunEnds(b, f.body, bodies, current);
    if current != [] {
      bodies := bodies + [current];
    }
  }

  method SplitCode(p: Policy, node: Node) returns (parts: seq<Node>)
    requires p.Valid()
    ensures parts == CodeParts(p, node)
  {
    var peeled := Peel(node.fenced, node.markup, node.text);
    if peeled.None? || peeled.value.body == [] {
      return [node];
    }
    var bodies := GroupLines(p, peeled.value);
    parts := seq(|bodies|, k requires 0 <= k < |bodies| => CodePart(node, peeled.value, bodies[k], k));
  }

  // ---------------------------------------------------------------------------------------
  // Overflow
  // ---------------------------------------------------------------------------------------

  /** The body lines are dealt out to the parts in order, at least one each; a part is over the threshold
      only with exactly one line, and a line too big with just the fence around it is a part of its own. */
  lemma CodePartsOverflowAlone(p: Policy, node: Node, f: Peeled, i: nat)
    requires p.Valid() && Peel(node.fenced, node.markup, node.text) == Some(f) && f.body != []
    requires i < |CodeParts(p, node)|
    ensures var groups := Groups(CodeBudget(p, f), f.body);
      && Flatten(groups) == f.body
      && |groups| == |CodeParts(p, node)|
      && CodeParts(p, node)[i].text == Render(f, groups[i])
      && groups[i] != []
      && (p.count(CodeParts(p, node)[i].text) > p.threshold <==>
            |groups[i]| == 1 && p.count(Render(f, [groups[i][0]])) > p.threshold)
      && forall m :: 0 <= m < |groups[i]| && p.count(Render(f, [groups[i][m]])) > p.threshold ==> |groups[i]| == 1
  {
    var b := CodeBudget(p, f);
    var groups := Groups(b, f.body);
    GreedyCharacterisation(b, f.body, groups);
    PackingLaw(b, f.body, i);
    var g := groups[i];
    assert |g| == 1 ==> g == [g[0]];
    forall m | 0 <= m < |g| && p.count(Render(f, [g[m]])) > p.threshold
      ensures |g| == 1
    {
      OversizedIsAlone(b, f.body, i, m);
    }
  }

  /** Line k took the part, its fence counted in, no further from the target. */
  ghost predicate LineGrowsAt(p: Policy, f: Peeled, g: seq<string>, k: nat)
    requires k < |g|
  {
    var s, c := p.count(Render(f, g[..k])), p.count(Render(f, g[..k] + [g[k]]));
    s < p.target && s <= c <= 2 * p.target - s && c <= p.threshold && p.count(Render(f, [g[k]])) <= p.threshold
  }

  /** Neighbouring code parts are greedy, the fence counted in. */
  lemma CodePartsAreGreedy(p: Policy, node: Node, f: Peeled, i: nat)
    requires p.Valid() && Peel(node.fenced, node.markup, node.text) == Some(f) && f.body != []
    requires i < |CodeParts(p, node)|
    ensures var groups := Groups(CodeBudget(p, f), f.body);
      && (forall k: nat :: 1 <= k < |groups[i]| ==> LineGrowsAt(p, f, groups[i], k))
      && (i + 1 < |groups| ==>
            && groups[i + 1] != []
            && var g, first := groups[i], groups[i + 1][0];
               var s, c := p.count(Render(f, g)), p.count(Render(f, g + [first]));
               p.count(Render(f, [first])) > p.threshold
               || s >= p.target || c > p.threshold || c < s || c > 2 * p.target - s)
  {
    hide Render, Peel, LineGrowsAt;
    PackingLaw(CodeBudget(p, f), f.body, i);
    forall k: nat | 1 <= k < |Groups(CodeBudget(p, f), f.body)[i]|
      ensures LineGrowsAt(p, f, Groups(CodeBudget(p, f), f.body)[i], k)
    {
      GroupGrows(p, f, i, k);
    }
  }

  lemma GroupGrows(p: Policy, f: Peeled, i: nat, k: nat)
    requires i < |Groups(CodeBudget(p, f), f.body)| && 1 <= k < |Groups(CodeBudget(p, f), f.body)[i]|
    ensures LineGrowsAt(p, f, Groups(CodeBudget(p, f), f.body)[i], k)
  {
    var b := CodeBudget(p, f);
    var g := Groups(b, f.body)[i];
    PackingLaw(b, f.body, i);
    hide Render, Groups;
    assert b.size(i, g[..k]) == p.count(Render(f, g[..k]));
    assert b.size(i, g[..k] + [g[k]]) == p.count(Render(f, g[..k] + [g[k]]));
  }

  // ---------------------------------------------------------------------------------------
  // Fence lines, spelled out
  // ---------------------------------------------------------------------------------------

  function Copies(c: char, n: nat): (s: string)
    ensures |s| == n
  {
    seq(n, _ => c)
  }

  ghost predicate Opens(markup: string, line: string, k: nat, info: string, end: string) {
    && k <= 3 && NoBreaks(info) && (end == "\n" || end == "\r\n")
    && line == Copies(' ', k) + markup + info + end
  }

  ghost predicate Closes(markup: string, line: string, k: nat, n: nat, blanks: string, end: string)
    requires markup != ""
  {
    && k <= 3 && n >= |markup|
    && (forall i :: 0 <= i < |blanks| ==> blanks[i] == ' ' || blanks[i] == '\t')
    && (end == "" || end == "\n" || end == "\r" || end == "\r\n")
    && line == Copies(' ', k) + Copies(markup[0], n) + blanks + end
  }

  /** A text is four pieces one after the other when cutting it where they end gives them back. */
  lemma FourPieces(line: string, a: string, b: string, c: string, d: string, i: nat, j: nat)
    requires i == |a| && j == i + |b|
    ensures line == a + b + c + d <==> j <= |line| && line[..i] == a && line[i..j] == b && line[j..] == c + d
  {
    var whole := a + b + c + d;
    assert whole[..i] == a && whole[i..j] == b && whole[j..] == c + d;
    if j <= |line| { assert line == line[..i] + line[i..j] + line[j..]; }
    assert a + b + (c + d) == whole;
  }

  lemma AllCopies(s: string, c: char)
    ensures AllOf(s, c) <==> s == Copies(c, |s|)
  {
  }

  /** An opening line is up to three blanks, the markup, anything, and a line break. */
  lemma OpeningIs(markup: string, line: string)
    ensures IsOpening(markup, line) <==> exists k: nat, info, end :: Opens(markup, line, k, info, end)
  {
    hide Opens, OpensAt;
    if IsOpening(markup, line) {
      var k := if OpensAt(markup, line, 0) then 0 else if OpensAt(markup, line, 1) then 1
               else if OpensAt(markup, line, 2) then 2 else 3;
      var info, end := OpeningHasForm(markup, line, k);
    }
    if k: nat, info, end :| Opens(markup, line, k, info, end) { FormIsOpening(markup, line, k, info, end); }
  }

  lemma OpensAtIs(markup: string, line: string, k: nat, m: nat)
    requires m == k + |markup|
    ensures OpensAt(markup, line, k) <==>
      k <= 3 && m <= |line| && line[..k] == Copies(' ', k) && line[k..m] == markup && RestOfLine(line[m..])
  {
    hide RestOfLine, Copies, AllOf;
    if m <= |line| { AllCopies(line[..k], ' '); }
  }

  lemma OpeningHasForm(markup: string, line: string, k: nat) returns (info: string, end: string)
    requires OpensAt(markup, line, k)
    ensures Opens(markup, line, k, info, end)
  {
    var m := k + |markup|;
    OpensAtIs(markup, line, k, m);
    info, end := RestHasForm(line[m..]);
    FourPieces(line, Copies(' ', k), markup, info, end, k, m);
    hide OpensAt, RestOfLine, NoBreaks;
  }

  lemma RestHasForm(rest: string) returns (info: string, end: string)
    requires RestOfLine(rest)
    ensures NoBreaks(info) && (end == "\n" || end == "\r\n") && rest == info + end
  {
    var body := rest[..|rest| - 1];
    if body != "" && body[|body| - 1] == '\r' {
      info, end := body[..|body| - 1], "\r\n";
    } else {
      info, end := body, "\n";
    }
  }

  lemma FormIsRest(rest: string, info: string, end: string)
    requires NoBreaks(info) && (end == "\n" || end == "\r\n") && rest == info + end
    ensures RestOfLine(rest)
  {
    var body := rest[..|rest| - 1];
    assert body == if end == "\n" then info else info + "\r";
    if end == "\r\n" { assert body[..|body| - 1] == info; }
  }

  lemma FormIsOpening(markup: string, line: string, k: nat, info: string, end: string)
    requires Opens(markup, line, k, info, end)
    ensures IsOpening(markup, line)
  {
    var m := k + |markup|;
    FormIsCut(markup, line, k, m, info, end);
    FormIsRest(line[m..], info, end);
    OpensAtIs(markup, line, k, m);
    hide RestOfLine, NoBreaks, OpensAt, Copies, IsOpening;
    OpensSomewhere(markup, line, k);
  }

  lemma FormIsCut(markup: string, line: string, k: nat, m: nat, info: string, end: string)
    requires Opens(markup, line, k, info, end) && m == k + |markup|
    ensures m <= |line| && line[..k] == Copies(' ', k) && line[k..m] == markup && line[m..] == info + end
  {
    hide Copies, NoBreaks;
    FourPieces(line, Copies(' ', k), markup, info, end, k, m);
  }

  lemma OpensSomewhere(markup: string, line: string, k: nat)
    requires OpensAt(markup, line, k)
    ensures IsOpening(markup, line)
  {
    assert k <= 3;
    hide OpensAt;
    assert k == 0 || k == 1 || k == 2 || k == 3;
  }

  /** A closing line is up to three blanks, the fence character at least as often as in the markup, blanks
      and tabs, and a line break or none. */
  lemma ClosingIs(markup: string, line: string)
    requires markup != ""
    ensures IsClosing(markup, line) <==> exists k: nat, n: nat, blanks, end :: Closes(markup, line, k, n, blanks, end)
  {
    hide Closes, ClosesAt;
    if IsClosing(markup, line) {
      var k: nat, e: nat, t: nat :| k <= 3 && e <= |line| && t <= |line| && ClosesAt(markup, line, k, e, t);
      ClosingHasForm(markup, line, k, e, t);
    }
    if k: nat, n: nat, blanks, end :| Closes(markup, line, k, n, blanks, end) {
      FormIsClosing(markup, line, k, n, blanks, end);
    }
  }

  lemma ClosingHasForm(markup: string, line: string, k: nat, e: nat, t: nat)
    requires markup != "" && ClosesAt(markup, line, k, e, t)
    ensures exists n: nat, blanks, end :: Closes(markup, line, k, n, blanks, end)
  {
    var n, blanks, end := e - k, line[e..t], line[t..];
    AllCopies(line[..k], ' ');
    AllCopies(line[k..e], markup[0]);
    hide AllOf, Copies;
    FourPieces(line, line[..k], line[k..e], blanks, end, k, e);
    assert line[e..] == blanks + end;
    assert Closes(markup, line, k, n, blanks, end);
  }

  lemma FormIsClosing(markup: string, line: string, k: nat, n: nat, blanks: string, end: string)
    requires markup != "" && Closes(markup, line, k, n, blanks, end)
    ensures IsClosing(markup, line)
  {
    var e, t := k + n, k + n + |blanks|;
    FourPieces(line, Copies(' ', k), Copies(markup[0], n), blanks, end, k, e);
    AllCopies(line[..k], ' ');
    AllCopies(line[k..e], markup[0]);
    hide AllOf, Copies;
    assert line[e..t] == line[e..][..|blanks|] == blanks && line[t..] == line[e..][|blanks|..] == end;
    assert forall i :: e <= i < t ==> line[i] == line[e..t][i - e];
    assert ClosesAt(markup, line, k, e, t);
  }

  /** When code can be split, and what is put around its parts: nothing for unfenced code; otherwise its
      first line, which has to be an opening one, and its last, if that is a closing one - else the markup
      on a line of its own, with the line break of the opening line. */
  lemma FenceReadOff(fenced: bool, markup: string, text: string)
    ensures var f, lines := Peel(fenced, markup, text), Lines(text);
      && (f.None? <==> fenced && (text == "" || markup == "" || !IsOpening(markup, lines[0])))
      && (f.Some? && !fenced ==> f.value == Peeled("", "", false, lines))
      && (f.Some? && fenced ==>
            var closed := |lines| > 1 && IsClosing(markup, lines[|lines| - 1]);
            && f.value.opening == lines[0] && f.value.synthetic == !closed
            && lines == [lines[0]] + f.value.body + (if closed then [f.value.closing] else [])
            && var windows := |lines[0]| >= 2 && lines[0][|lines[0]| - 2..] == "\r\n";
               !closed ==> f.value.closing == markup + (if windows then "\r\n" else "\n"))
  {
    hide IsOpening, IsClosing;
  }

  // ---------------------------------------------------------------------------------------
  // Round trips
  // ---------------------------------------------------------------------------------------

  /** Nothing of the source is lost or moved: opening, bodies of all parts in order, and closing spell
      the node's text; an unclosed fence has no closing of its own, unfenced code no fence at all. */
  lemma BodiesSpellTheSource(p: Policy, node: Node, f: Peeled)
    requires p.Valid() && Peel(node.fenced, node.markup, node.text) == Some(f)
    ensures var groups := Groups(CodeBudget(p, f), f.body);
      && Flatten(groups) == f.body
      && f.opening + Concat(Flatten(groups)) + (if f.synthetic then "" else f.closing) == node.text
  {
    var lines := Lines(node.text);
    LinesSpec(node.text);
    GreedyCharacterisation(CodeBudget(p, f), f.body, Groups(CodeBudget(p, f), f.body));
    hide Lines, IsOpening, IsClosing, Groups, Lined;
    if node.fenced {
      var rest := lines[1..];
      assert node.text == lines[0] + Concat(rest);
      if !f.synthetic {
        var last := rest[|rest| - 1];
        assert rest == f.body + [last];
        ConcatSplits(f.body, [last]);
        ConcatOne(last);
      }
    }
  }

  /** The body lines of a part, the last one completed where the fence needs it. */
  function Completed(f: Peeled, body: seq<string>): seq<string> {
    if f.closing == "" || body == [] || EndsLine(body[|body| - 1]) then body
    else body[..|body| - 1] + [body[|body| - 1] + NewlineOf(f.opening)]
  }

  lemma RenderIsLined(f: Peeled, group: seq<string>)
    requires group != [] && Lined(group)
    requires f.closing != "" ==> IsLine(f.opening) && EndsLine(f.opening) && IsLine(f.closing)
    requires f.closing == "" ==> f.opening == ""
    ensures Lines(Render(f, group)) ==
      if f.closing == "" then group else [f.opening] + Completed(f, group) + [f.closing]
  {
    if f.closing == "" {
      LinesOfConcat(group);
      assert Render(f, group) == Concat(group);
    } else {
      var body := Completed(f, group);
      var front, last := group[..|group| - 1], group[|group| - 1];
      assert group == front + [last];
      ConcatSplits(front, [last]);
      ConcatSplits(front, [last + NewlineOf(f.opening)]);
      ConcatOne(last);
      ConcatOne(last + NewlineOf(f.opening));
      var all := [f.opening] + body + [f.closing];
      ConcatSplits([f.opening] + body, [f.closing]);
      ConcatSplits([f.opening], body);
      ConcatOne(f.opening);
      ConcatOne(f.closing);
      assert Concat(all) == Render(f, group);
      CompletedIsLined(f, group);
      LinesOfConcat(all);
    }
  }

  lemma CompletedIsLined(f: Peeled, group: seq<string>)
    requires group != [] && Lined(group) && f.closing != ""
    ensures var body := Completed(f, group);
      body != [] && Lined(body) && EndsLine(body[|body| - 1])
  {
  }

  /** The parser's fence markup is a run of one character. */
  predicate Run(markup: string) { markup != "" && AllOf(markup, markup[0]) }

  lemma SyntheticCloses(markup: string, opening: string)
    requires Run(markup)
    ensures IsClosing(markup, markup + NewlineOf(opening))
  {
    var line := markup + NewlineOf(opening);
    assert line[..0] == "" && line[0..|markup|] == markup && line[|markup|..] == NewlineOf(opening);
    assert ClosesAt(markup, line, 0, |markup|, |markup|);
  }

  lemma OpensAtHoldsMarkup(markup: string, line: string, k: nat)
    requires OpensAt(markup, line, k) && IsLine(line)
    ensures EndsLine(line)
    ensures forall i :: 0 <= i < |markup| ==> markup[i] != '\n'
  {
    var rest := line[k + |markup|..];
    assert line[|line| - 1] == rest[|rest| - 1];
    var run := line[k..k + |markup|];
    assert forall i :: 0 <= i < |run| ==> run[i] == line[k + i];
  }

  lemma OpeningHoldsMarkup(markup: string, line: string)
    requires IsOpening(markup, line) && IsLine(line)
    ensures EndsLine(line)
    ensures forall i :: 0 <= i < |markup| ==> markup[i] != '\n'
  {
    if OpensAt(markup, line, 0) { OpensAtHoldsMarkup(markup, line, 0); }
    else if OpensAt(markup, line, 1) { OpensAtHoldsMarkup(markup, line, 1); }
    else if OpensAt(markup, line, 2) { OpensAtHoldsMarkup(markup, line, 2); }
    else { OpensAtHoldsMarkup(markup, line, 3); }
  }

  /** Peeling a rendered part gives back the fence and exactly the part's own lines, up to the
      newline that rendering adds to an incomplete last line. */
  lemma PeelingAPart(p: Policy, node: Node, f: Peeled, j: nat)
    requires p.Valid() && Peel(node.fenced, node.markup, node.text) == Some(f)
    requires node.fenced ==> Run(node.markup)
    requires j < |Groups(CodeBudget(p, f), f.body)|
    ensures var g := Groups(CodeBudget(p, f), f.body)[j];
      Peel(node.fenced, node.markup, Render(f, g))
        == Some(Peeled(f.opening, f.closing, false, Completed(f, g)))
  {
    var groups := Groups(CodeBudget(p, f), f.body);
    var g := groups[j];
    GreedyCharacterisation(CodeBudget(p, f), f.body, groups);
    PackingLaw(CodeBudget(p, f), f.body, j);
    PeeledPieces(node.fenced, node.markup, node.text, f);
    PartOfLined(f.body, groups, j);
    hide Peel, Render, Lines, IsOpening, IsClosing, Groups, Lined, IsLine, EndsLine;
    RenderIsLined(f, g);
    PeelLines(node.fenced, node.markup, Render(f, g), f, Completed(f, g));
  }

  lemma PeelLines(fenced: bool, markup: string, text: string, f: Peeled, body: seq<string>)
    requires !fenced ==> Lines(text) == body && f.opening == f.closing == ""
    requires fenced ==> markup != "" && Lines(text) == [f.opening] + body + [f.closing]
                        && IsOpening(markup, f.opening) && IsClosing(markup, f.closing)
    ensures Peel(fenced, markup, text) == Some(Peeled(f.opening, f.closing, false, body))
  {
    hide IsOpening, IsClosing, Lines;
    if fenced {
      var rest := Lines(text)[1..];
      assert rest == body + [f.closing];
      assert rest[..|rest| - 1] == body;
    }
  }

  /** What peeling says about the pieces. */
  lemma PeeledPieces(fenced: bool, markup: string, text: string, f: Peeled)
    requires Peel(fenced, markup, text) == Some(f)
    requires fenced ==> Run(markup)
    ensures Lined(f.body)
    ensures !fenced ==> f.opening == f.closing == ""
    ensures fenced ==> IsOpening(markup, f.opening) && IsClosing(markup, f.closing) && f.closing != ""
                       && IsLine(f.opening) && EndsLine(f.opening) && IsLine(f.closing)
  {
    var lines := Lines(text);
    LinesSpec(text);
    hide IsOpening, IsClosing, Lines, Lined, IsLine, EndsLine, NewlineOf, Run;
    if fenced {
      LinedAt(lines, 0);
      OpeningHoldsMarkup(markup, lines[0]);
      LinedSlice(lines, 1, |lines|);
      assert lines[1..|lines|] == lines[1..];
      if f.synthetic {
        SyntheticCloses(markup, lines[0]);
        SyntheticIsLine(markup, lines[0]);
      } else {
        assert f.body == lines[1..|lines| - 1];
        LinedSlice(lines, 1, |lines| - 1);
        LinedAt(lines, |lines| - 1);
      }
    }
  }

  lemma LinedAt(ls: seq<string>, i: nat)
    requires Lined(ls) && i < |ls|
    ensures IsLine(ls[i]) && ls[i] != ""
  {
  }

  lemma LinedSlice(ls: seq<string>, a: nat, b: nat)
    requires Lined(ls) && a <= b <= |ls|
    ensures Lined(ls[a..b])
  {
    hide IsLine, EndsLine;
  }

  lemma SyntheticIsLine(markup: string, opening: string)
    requires Run(markup) && forall i :: 0 <= i < |markup| ==> markup[i] != '\n'
    ensures IsLine(markup + NewlineOf(opening)) && markup + NewlineOf(opening) != ""
  {
  }

  lemma {:induction false} PartOfLined(body: seq<string>, groups: seq<seq<string>>, j: nat)
    requires Lined(body) && Flatten(groups) == body && j < |groups|
    ensures Lined(groups[j])
    decreases j
  {
    var rest := Flatten(groups[1..]);
    if j == 0 {
      forall i | 0 <= i < |groups[0]| ensures groups[0][i] == body[i] { }
    } else {
      forall i | 0 <= i < |rest| ensures rest[i] == body[|groups[0]| + i] { }
      PartOfLined(rest, groups[1..], j - 1);
    }
  }
}
