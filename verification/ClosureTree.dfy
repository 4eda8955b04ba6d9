/** Tree snapshots, the registered sources in them, and the value spans of one file. */
module ClosureTree {
  import opened Text
  import opened PlanScan
  import opened Sorting
  import opened Splice
  import opened ScanOrder
  import opened Rewrite

  /** File contents that decode as UTF-8, or bytes that do not. */
  datatype File = Utf8(text: string) | Raw(bytes: seq<int>)
  type Tree = map<string, File>

  datatype PlanSource = PlanSource(planLabel: string, planPath: string, ticketsPath: string)
  datatype Registry = Registry(plans: seq<PlanSource>, lights: map<string, string>)

  /** treeText: None where the source throws (no such file, or not UTF-8). */
  function TreeText(tree: Tree, path: string): Option<string> {
    if path in tree && tree[path].Utf8? then Some(tree[path].text) else None
  }

  /** A ticket's frontmatter as its YAML reader reports it: its id, and where its one state word stands. */
  datatype Front = Front(id: string, start: nat, end: nat, state: string)

  /** The YAML reader, for plan tickets (false) and light tickets (true); None where it throws. */
  type Reader = (string, bool) -> Option<Front>

  predicate IsState(w: string) {
    w == "todo" || w == "wip" || w == "done"
  }

  function PutState(text: string, fm: Front, w: string): string {
    Put(text, Edit(fm.start, fm.end, w))
  }

  /** What the reader promises: the state span holds the state, and rewriting it changes the state alone. */
  ghost predicate Faithful(read: Reader) {
    forall text, light {:trigger FaithfulFor(read, text, light)} :: FaithfulFor(read, text, light)
  }

  ghost predicate FaithfulFor(read: Reader, text: string, light: bool) {
    read(text, light).Some? ==>
      var fm := read(text, light).value;
      && fm.start <= fm.end <= |text| && fm.state == text[fm.start..fm.end]
      && forall w {:trigger RewritesTo(read, text, light, fm, w)} :: IsState(w) ==> RewritesTo(read, text, light, fm, w)
  }

  ghost predicate RewritesTo(read: Reader, text: string, light: bool, fm: Front, w: string) {
    read(PutState(text, fm, w), light) == Some(Front(fm.id, fm.start, fm.start + |w|, w))
  }

  predicate IsTicketId(id: string) {
    |id| == 3 && (id[0] == 'T' || id[0] == 'W') && IsDigit(id[1]) && IsDigit(id[2])
  }

  function TicketPath(source: PlanSource, id: string): string {
    source.ticketsPath + "/" + id + ".md"
  }

  /** registeredTicketPaths: the files of the source's folder named like a ticket. */
  ghost predicate IsTicketPath(source: PlanSource, path: string) {
    exists id :: IsTicketId(id) && path == TicketPath(source, id)
  }

  predicate TicketNamed(source: PlanSource, path: string) {
    var prefix := source.ticketsPath + "/";
    |path| == |prefix| + 6 && path[..|prefix|] == prefix
    && IsTicketId(path[|prefix|..|prefix| + 3]) && path[|prefix| + 3..] == ".md"
  }

  lemma TicketNamedIff(source: PlanSource, path: string)
    ensures TicketNamed(source, path) <==> IsTicketPath(source, path)
  {
    var prefix := source.ticketsPath + "/";
    if TicketNamed(source, path) {
      var id := path[|prefix|..|prefix| + 3];
      assert path == path[..|prefix|] + path[|prefix|..|prefix| + 3] + path[|prefix| + 3..];
      assert path == TicketPath(source, id);
    }
    if IsTicketPath(source, path) {
      var id :| IsTicketId(id) && path == TicketPath(source, id);
      assert path == prefix + id + ".md";
      assert path[..|prefix|] == prefix && path[|prefix|..|prefix| + 3] == id && path[|prefix| + 3..] == ".md";
    }
  }

  predicate IsPlan(registry: Registry, path: string) {
    exists s :: s in registry.plans && s.planPath == path
  }

  predicate IsTicket(registry: Registry, path: string) {
    exists s :: s in registry.plans && TicketNamed(s, path)
  }

  predicate IsLight(registry: Registry, path: string) {
    path in registry.lights.Values
  }

  // ----- value spans

  datatype Kind = Milestone | Status | State

  /** One value span of a file, with what it identifies. */
  datatype Mark = Mark(start: nat, end: nat, value: string, kind: Kind, milestone: Option<string>,
                       row: Option<(nat, nat)>, ticket: Option<string>)

  function Edits(marks: seq<Mark>): (r: seq<Edit>)
    ensures |r| == |marks| && forall i :: 0 <= i < |r| ==> r[i] == Edit(marks[i].start, marks[i].end, marks[i].value)
  {
    seq(|marks|, i requires 0 <= i < |marks| => Edit(marks[i].start, marks[i].end, marks[i].value))
  }

  function ByStart(): (Token, Token) -> bool {
    (a: Token, b: Token) => a.valueStart <= b.valueStart
  }

  function TokenMark(k: Token): Mark {
    Mark(k.valueStart, k.valueEnd, k.value, if k.task.None? then Milestone else Status, Some(k.milestone), k.task, None)
  }

  /** Headings then rows, as the scanner lists them, put in text order. */
  function SortedTokens(g: Grammar, html: string): seq<Token> {
    Sort(Milestones(Scan(g, html)) + TaskTokens(AllTasks(Scan(g, html))), ByStart())
  }

  function Marks(tokens: seq<Token>): (r: seq<Mark>)
    ensures |r| == |tokens| && forall i :: 0 <= i < |r| ==> r[i] == TokenMark(tokens[i])
  {
    seq(|tokens|, i requires 0 <= i < |tokens| => TokenMark(tokens[i]))
  }

  /** planSpans. */
  function PlanMarks(g: Grammar, html: string): seq<Mark> {
    Marks(SortedTokens(g, html))
  }

  /** ticketSpans: the one state value, None where the frontmatter does not parse. */
  function TicketMarks(read: Reader, text: string, light: bool): Option<seq<Mark>> {
    match read(text, light)
    case None => None
    case Some(fm) => Some([Mark(fm.start, fm.end, fm.state, State, None, None, Some(fm.id))])
  }

  // ----- sorting the scanner's lists gives text order

  lemma {:induction false} ListedTokens(sections: seq<Section>)
    ensures forall k :: k in Tokens(sections) <==> k in Milestones(sections) || k in TaskTokens(AllTasks(sections))
  {
    if sections != [] {
      ListedTokens(sections[1..]);
      TaskTokensAppend(sections[0].tasks, AllTasks(sections[1..]));
    }
  }

  lemma {:induction false} TaskTokensAppend(x: seq<TaskSlice>, y: seq<TaskSlice>)
    ensures TaskTokens(x + y) == TaskTokens(x) + TaskTokens(y)
  {
    if x == [] {
      assert x + y == y;
    } else {
      assert (x + y)[1..] == x[1..] + y;
      TaskTokensAppend(x[1..], y);
    }
  }

  lemma ByStartIsTotal()
    ensures TotalPreorder(ByStart())
  {}

  lemma SortedElements(g: Grammar, html: string)
    ensures forall k :: k in SortedTokens(g, html) <==> k in Tokens(Scan(g, html))
  {
    var listed := Milestones(Scan(g, html)) + TaskTokens(AllTasks(Scan(g, html)));
    ListedTokens(Scan(g, html));
    ByStartIsTotal();
    SortIsSortedPermutation(listed, ByStart());
    forall k ensures k in SortedTokens(g, html) <==> k in Tokens(Scan(g, html)) {
      assert k in listed <==> k in Milestones(Scan(g, html)) || k in TaskTokens(AllTasks(Scan(g, html)));
    }
  }

  lemma {:induction false} ListedOnce(sections: seq<Section>)
    ensures multiset(Tokens(sections)) == multiset(Milestones(sections)) + multiset(TaskTokens(AllTasks(sections)))
  {
    if sections != [] {
      ListedOnce(sections[1..]);
      TaskTokensAppend(sections[0].tasks, AllTasks(sections[1..]));
    }
  }

  lemma LaidNeverTie(html: string, tokens: seq<Token>)
    requires Laid(html, tokens, 0, |html|)
    ensures Sorted(tokens, ByStart())
    ensures forall a, b :: a in tokens && b in tokens && a.valueStart == b.valueStart ==> a == b
  {
    TokensInOrder(tokens, 0, |html|);
  }

  /** planSpans sees every token once, in text order. */
  lemma SortedIsTextOrder(g: Grammar, html: string)
    requires Readable(g, html)
    ensures SortedTokens(g, html) == Tokens(Scan(g, html))
  {
    var tokens := Tokens(Scan(g, html));
    var listed := Milestones(Scan(g, html)) + TaskTokens(AllTasks(Scan(g, html)));
    PlanIsLaid(g, html);
    LaidNeverTie(html, tokens);
    ListedOnce(Scan(g, html));
    ByStartIsTotal();
    SortIsSortedPermutation(listed, ByStart());
    SortedIsUnique(tokens, Sort(listed, ByStart()), ByStart());
  }
}
