/** The awsf-plan-html/v1 scanner: which status tokens a plan text holds, and where. */
module PlanScan {
  import opened Text

  /** The fixed texts the scanner's expressions are built from. */
  datatype Grammar = Grammar(
    headTag: string,     // opens a milestone heading
    open: string,        // opens a status token
    close: string,       // closes a status token
    headMid: string,     // between a heading's value and its milestone number
    taskOpen: string,    // opens a task heading
    sectionEnd: string)  // closes a section

  const V1 := Grammar("<h3>", "<code class=\"status\">[", "]</code>", "]</code> Milestone M", "<h4>", "</section>")

  /** No bracket opens inside the text, except possibly at its very end. */
  predicate BracketLast(lit: string) {
    forall i :: 0 <= i < |lit| - 1 ==> lit[i] != '['
  }

  /** Laid over `lit` at position k, `sub` disagrees with it somewhere. */
  ghost predicate Clashes(lit: string, k: nat, sub: string) {
    exists m :: 0 <= m < |sub| && k + m < |lit| && lit[k + m] != sub[m]
  }

  /** What makes the scan unambiguous when no value holds `<`. */
  ghost predicate Sound(g: Grammar) {
    && BracketLast(g.headTag + g.open) && BracketLast(g.open) && BracketLast(g.close) && BracketLast(g.headMid)
    && BracketLast(g.taskOpen) && BracketLast(g.sectionEnd)
    && g.headTag != "" && g.headTag[0] == '<'
    && |g.open| >= 2 && g.open[0] == '<' && g.open[|g.open| - 2] == '>' && g.open[|g.open| - 1] == '['
    && g.close != "" && g.close[0] == ']' && g.close[|g.close| - 1] == '>'
    && g.close <= g.headMid && g.headMid[|g.headMid| - 1] != '['
    && g.taskOpen != "" && g.taskOpen[0] == '<' && g.taskOpen[|g.taskOpen| - 1] == '>'
    && g.sectionEnd != "" && g.sectionEnd[0] == '<'
  }

  /** Neither a task heading nor a section's end can start inside a milestone heading's opening. */
  ghost predicate Separate(g: Grammar) {
    forall k {:trigger Clashes(g.headTag + g.open, k, g.taskOpen)} {:trigger Clashes(g.headTag + g.open, k, g.sectionEnd)} ::
      0 <= k < |g.headTag + g.open| ==>
      Clashes(g.headTag + g.open, k, g.taskOpen) && Clashes(g.headTag + g.open, k, g.sectionEnd)
  }

  lemma V1IsSound()
    ensures Sound(V1)
  {}

  const HEAD_OPEN := "<h3><code class=\"status\">["

  lemma OnlyTwoAngles()
    ensures forall k :: 0 <= k < |HEAD_OPEN| && k != 0 && k != 4 ==> HEAD_OPEN[k] != '<'
    ensures |HEAD_OPEN| == 26 && HEAD_OPEN[1] == 'h' && HEAD_OPEN[2] == '3' && HEAD_OPEN[5] == 'c'
  {}

  lemma ClashAt(lit: string, k: nat, sub: string, m: nat)
    requires m < |sub| && k + m < |lit| && lit[k + m] != sub[m]
    ensures Clashes(lit, k, sub)
  {}

  lemma V1IsSeparate()
    ensures Separate(V1)
  {
    var lit, h4, end := HEAD_OPEN, "<h4>", "</section>";
    OnlyTwoAngles();
    assert V1.headTag + V1.open == lit;
    assert h4[0] == '<' && h4[1] == 'h' && h4[2] == '4' && end[0] == '<' && end[1] == '/';
    V1Clashes(lit, h4, end);
  }

  lemma V1Clashes(lit: string, h4: string, end: string)
    requires |lit| == 26 && |h4| == 4 && |end| == 10
    requires forall k :: 0 <= k < |lit| && k != 0 && k != 4 ==> lit[k] != '<'
    requires lit[1] == 'h' && lit[2] == '3' && lit[5] == 'c'
    requires h4[0] == '<' && h4[1] == 'h' && h4[2] == '4' && end[0] == '<' && end[1] == '/'
    ensures forall k :: 0 <= k < |lit| ==> Clashes(lit, k, h4) && Clashes(lit, k, end)
  {
    forall k | 0 <= k < |lit| ensures Clashes(lit, k, h4) && Clashes(lit, k, end) {
      ClashAt(lit, k, h4, if k == 0 then 2 else if k == 4 then 1 else 0);
      ClashAt(lit, k, end, if k == 0 || k == 4 then 1 else 0);
    }
  }

  /** The three expressions the scanner searches for. */
  datatype Pattern = Head | Task | Row

  /** One match: where it is, where its bracketed or numbered part is, and its name. */
  datatype Hit = Hit(start: nat, from: nat, to: nat, end: nat, name: string)

  predicate Proper(h: Option<Hit>, s: string, i: nat) {
    h.Some? ==> i == h.value.start <= h.value.from <= h.value.to < h.value.end <= |s|
  }

  /** The bracket after `open` runs to the first `]`, which must start `close`. */
  function Bracketed(s: string, i: nat, open: string, close: string): (j: Option<nat>)
    ensures j.Some? ==> i + |open| <= j.value && j.value + |close| <= |s|
  {
    if StartsAt(s, i, open) && i <= |s| then
      StartsAtIsPrefix(s, i, open);
      var j := FindChar(s, ']', i + |open|);
      StartsAtIsPrefix(s, j, close);
      if StartsAt(s, j, close) then Some(j) else None
    else None
  }

  function MatchRow(g: Grammar, s: string, i: nat): (h: Option<Hit>)
    ensures g.close != "" ==> Proper(h, s, i)
  {
    match Bracketed(s, i, g.open, g.close)
    case None => None
    case Some(j) => Some(Hit(i, i + |g.open|, j, j + |g.close|, ""))
  }

  function MatchHead(g: Grammar, s: string, i: nat): (h: Option<Hit>)
    ensures Proper(h, s, i)
  {
    match Bracketed(s, i, g.headTag + g.open, g.headMid)
    case None => None
    case Some(j) =>
      var d := Digits(s, j + |g.headMid|);
      var colon := j + |g.headMid| + |d|;
      if d != "" && colon < |s| && s[colon] == ':'
      then Some(Hit(i, i + |g.headTag + g.open|, j, colon + 1, "M" + d)) else None
  }

  function MatchTask(g: Grammar, s: string, i: nat): (h: Option<Hit>)
    ensures Proper(h, s, i)
  {
    if StartsAt(s, i, g.taskOpen) then
      var d := Digits(s, i + |g.taskOpen|);
      var dot := i + |g.taskOpen| + |d|;
      if d != "" && dot < |s| && s[dot] == '.' then Some(Hit(i, i + |g.taskOpen|, dot, dot + 1, d)) else None
    else None
  }

  function MatchAt(g: Grammar, p: Pattern, s: string, i: nat): (h: Option<Hit>)
    ensures g.close != "" ==> Proper(h, s, i)
  {
    match p
    case Head => MatchHead(g, s, i)
    case Task => MatchTask(g, s, i)
    case Row => MatchRow(g, s, i)
  }

  /** matchAll: leftmost matches, each search resuming where the last match ended. */
  function MatchAll(g: Grammar, p: Pattern, s: string, i: nat): seq<Hit>
    decreases |s| - i
  {
    if i >= |s| then []
    else
      match MatchAt(g, p, s, i)
      case None => MatchAll(g, p, s, i + 1)
      case Some(h) => if h.end <= i then [h] else [h] + MatchAll(g, p, s, h.end)
  }

  datatype Token = Token(start: nat, end: nat, valueStart: nat, valueEnd: nat, value: string,
                         milestone: string, task: Option<(nat, nat)>)
  datatype TaskSlice = TaskSlice(number: nat, milestone: string, marker: string,
                                 start: nat, end: nat, tokens: seq<Token>)
  datatype Section = Section(head: Token, tasks: seq<TaskSlice>)

  function TokenOf(g: Grammar, html: string, h: Hit, offset: nat, start: nat, milestone: string, task: Option<(nat, nat)>): Token {
    Token(offset + start, offset + h.to + |g.close|, offset + h.from, offset + h.to,
          Slice(html, offset + h.from, offset + h.to), milestone, task)
  }

  function RowTokens(g: Grammar, html: string, offset: nat, hits: seq<Hit>, milestone: string, number: nat, row: nat): seq<Token> {
    if hits == [] then []
    else [TokenOf(g, html, hits[0], offset, hits[0].start, milestone, Some((number, row)))]
         + RowTokens(g, html, offset, hits[1..], milestone, number, row + 1)
  }

  function TaskAt(g: Grammar, html: string, from: nat, to: nat, number: nat, milestone: string, marker: string): TaskSlice {
    TaskSlice(number, milestone, marker, from, to,
              RowTokens(g, html, from, MatchAll(g, Row, Slice(html, from, to), 0), milestone, number, 0))
  }

  /** The first task of a block: from its heading to the next task heading or the block's end. */
  function TaskOf(g: Grammar, html: string, start: nat, end: nat, heads: seq<Hit>, milestone: string, marker: string): TaskSlice
    requires heads != []
  {
    TaskAt(g, html, start + heads[0].start, if |heads| > 1 then start + heads[1].start else end,
           NumberOf(heads[0].name), milestone, marker)
  }

  function Tasks(g: Grammar, html: string, start: nat, end: nat, heads: seq<Hit>, milestone: string, marker: string): seq<TaskSlice> {
    if heads == [] then []
    else [TaskOf(g, html, start, end, heads, milestone, marker)] + Tasks(g, html, start, end, heads[1..], milestone, marker)
  }

  /** A section's block ends at the next heading or the next closing tag, whichever is first. */
  function BlockEnd(g: Grammar, html: string, heads: seq<Hit>): nat
    requires heads != []
  {
    var next := if |heads| > 1 then heads[1].start else |html|;
    match IndexOf(html, g.sectionEnd, heads[0].start)
    case None => next
    case Some(closing) => if next <= closing then next else closing
  }

  function HeadToken(g: Grammar, html: string, h: Hit): Token {
    TokenOf(g, html, h, 0, h.start + |g.headTag|, h.name, None)
  }

  function SectionOf(g: Grammar, html: string, heads: seq<Hit>): Section
    requires heads != []
  {
    var head := HeadToken(g, html, heads[0]);
    var start, end := heads[0].start, BlockEnd(g, html, heads);
    Section(head, Tasks(g, html, start, end, MatchAll(g, Task, Slice(html, start, end), 0), head.milestone, head.value))
  }

  function Sections(g: Grammar, html: string, heads: seq<Hit>): seq<Section> {
    if heads == [] then [] else [SectionOf(g, html, heads)] + Sections(g, html, heads[1..])
  }

  function Scan(g: Grammar, html: string): seq<Section> {
    Sections(g, html, MatchAll(g, Head, html, 0))
  }

  // ----- the two lists the scanner returns

  function Milestones(sections: seq<Section>): seq<Token> {
    if sections == [] then [] else [sections[0].head] + Milestones(sections[1..])
  }

  function AllTasks(sections: seq<Section>): seq<TaskSlice> {
    if sections == [] then [] else sections[0].tasks + AllTasks(sections[1..])
  }

  function TaskTokens(tasks: seq<TaskSlice>): seq<Token> {
    if tasks == [] then [] else tasks[0].tokens + TaskTokens(tasks[1..])
  }

  /** Every token, in text order: each heading before the rows of its tasks. */
  function Tokens(sections: seq<Section>): seq<Token> {
    if sections == [] then []
    else [sections[0].head] + TaskTokens(sections[0].tasks) + Tokens(sections[1..])
  }

  /** scanAwsfPlanHtmlV1: the scan's loops, filling the two lists. */
  method ScanPlan(g: Grammar, html: string) returns (milestones: seq<Token>, tasks: seq<TaskSlice>)
    ensures milestones == Milestones(Scan(g, html)) && tasks == AllTasks(Scan(g, html))
  {
    var heads := MatchAll(g, Head, html, 0);
    milestones, tasks := [], [];
    for index := 0 to |heads|
      invariant milestones + Milestones(Sections(g, html, heads[index..])) == Milestones(Scan(g, html))
      invariant tasks + AllTasks(Sections(g, html, heads[index..])) == AllTasks(Scan(g, html))
    {
      var rest := heads[index..];
      SectionsStep(g, html, heads, index, milestones, tasks);
      var head := HeadToken(g, html, heads[index]);
      var own := ScanTasks(g, html, heads[index].start, BlockEnd(g, html, rest), head.milestone, head.value);
      milestones := milestones + [head];
      tasks := tasks + own;
    }
    assert heads[|heads|..] == [];
  }

  lemma SectionsStep(g: Grammar, html: string, heads: seq<Hit>, index: nat, m: seq<Token>, t: seq<TaskSlice>)
    requires index < |heads|
    ensures var section := SectionOf(g, html, heads[index..]);
            && m + [section.head] + Milestones(Sections(g, html, heads[index + 1..])) == m + Milestones(Sections(g, html, heads[index..]))
            && t + section.tasks + AllTasks(Sections(g, html, heads[index + 1..])) == t + AllTasks(Sections(g, html, heads[index..]))
  {
    assert heads[index..][1..] == heads[index + 1..];
    AppendStep(SectionOf(g, html, heads[index..]), Sections(g, html, heads[index + 1..]), m, t);
  }

  lemma AppendStep(s: Section, later: seq<Section>, m: seq<Token>, t: seq<TaskSlice>)
    ensures m + [s.head] + Milestones(later) == m + Milestones([s] + later)
    ensures t + s.tasks + AllTasks(later) == t + AllTasks([s] + later)
  {
    assert ([s] + later)[1..] == later;
    assert Milestones([s] + later) == [s.head] + Milestones(later);
    assert AllTasks([s] + later) == s.tasks + AllTasks(later);
  }

  method ScanTasks(g: Grammar, html: string, start: nat, end: nat, milestone: string, marker: string)
    returns (tasks: seq<TaskSlice>)
    ensures tasks == Tasks(g, html, start, end, MatchAll(g, Task, Slice(html, start, end), 0), milestone, marker)
  {
    var heads := MatchAll(g, Task, Slice(html, start, end), 0);
    tasks := [];
    assert heads[0..] == heads;
    for index := 0 to |heads|
      invariant tasks + Tasks(g, html, start, end, heads[index..], milestone, marker)
                == Tasks(g, html, start, end, heads, milestone, marker)
    {
      var rest := heads[index..];
      TasksStep(g, html, start, end, heads, index, milestone, marker, tasks);
      tasks := tasks + [TaskOf(g, html, start, end, rest, milestone, marker)];
    }
    assert heads[|heads|..] == [];
  }

  lemma TasksStep(g: Grammar, html: string, start: nat, end: nat, heads: seq<Hit>, index: nat, milestone: string, marker: string, found: seq<TaskSlice>)
    requires index < |heads|
    ensures found + [TaskOf(g, html, start, end, heads[index..], milestone, marker)] + Tasks(g, html, start, end, heads[index + 1..], milestone, marker)
            == found + Tasks(g, html, start, end, heads[index..], milestone, marker)
  {
    assert heads[index..][1..] == heads[index + 1..];
  }
}
