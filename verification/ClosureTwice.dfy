/** Two proposed tickets that name one task: its rows are written twice, and when that spoils the plan. */
module ClosureTwice {
  import opened Text
  import opened PlanScan
  import opened Splice
  import opened Sorting
  import opened ScanOrder
  import opened Rewrite
  import opened EditPlan
  import opened Holes
  import opened ClosureTree
  import opened ClosureDelta
  import opened ClosureExact
  import opened ClosureWrite
  import opened ClosureRows
  import opened ClosureAccepted

  /** Two rows of a proposal name one and the same token. */
  ghost predicate NameOne(rows: seq<ClosureRow>, tasks: seq<TaskSlice>, k: Token) {
    && |rows| == 2 && RowNames(rows[0], tasks) && RowNames(rows[1], tasks)
    && TokenFor(rows[0], tasks) == k && TokenFor(rows[1], tasks) == k
  }

  function Chosen(r: ClosureRow, k: Token, closed: set<ClosureRow>): string {
    if r in closed then "x" else k.value
  }

  /** The one token's value replaced, every other kept. */
  function Only(k: Token, value: string): Token -> string {
    (t: Token) => if t == k then value else t.value
  }

  lemma TwoEdits(rows: seq<ClosureRow>, tasks: seq<TaskSlice>, k: Token, closed: set<ClosureRow>)
    requires NameOne(rows, tasks, k)
    ensures RowEdits(rows, tasks, closed) == Some([EditFor(k, Chosen(rows[0], k, closed)), EditFor(k, Chosen(rows[1], k, closed))])
  {
    hide Numbered;
    RowEditsAre(rows, tasks, closed);
    var e := RowEdits(rows, tasks, closed).value;
    assert e == [e[0], e[1]];
  }

  lemma SortedTwo(a: Edit, b: Edit)
    requires a.start == b.start
    ensures Sort([a, b], Descending()) == [a, b]
  {
    assert [a, b][1..] == [b] && [b][1..] == [];
    assert Sort([b], Descending()) == [b];
  }

  lemma PutTwo(text: string, a: Edit, b: Edit)
    ensures PutAll(text, [a, b]) == Put(Put(text, a), b)
  {
    var both, last := [a, b], [b];
    assert both[1..] == last && last[1..] == [];
    assert PutAll(text, both) == PutAll(Put(text, a), last);
  }

  lemma OneWrites(g: Grammar, html: string, k: Token, value: string)
    requires Readable(g, html) && k in Tokens(Scan(g, html))
    ensures Put(html, EditFor(k, value)) == Restated(g, html, Only(k, value))
  {
    hide Scan, Tokens, Restated, Put, Readable;
    var edits, f := [EditFor(k, value)], Only(k, value);
    assert edits[0] == EditFor(k, f(k)) && edits[0] in edits;
    assert ThroughToken(Tokens(Scan(g, html)), edits[0], f);
    EditsRestate(g, html, edits, f);
    assert edits[1..] == [];
    assert Sort(edits, Descending()) == edits;
  }

  lemma Inside(g: Grammar, html: string, k: Token)
    requires Readable(g, html) && k in Tokens(Scan(g, html))
    ensures k.valueStart <= k.valueEnd < |html| && |k.value| == k.valueEnd - k.valueStart
  {
    hide Scan, Tokens;
    PlanIsLaid(g, html);
    assert TokenReads(html, k);
  }

  /** The plan comes out as the second row asked iff what the first row wrote is as long as what stood there. */
  lemma TwiceIff(c: Context, html: string, p: Proposal, k: Token, closed: set<ClosureRow>)
    requires Readable(c.g, html) && k in Tokens(Scan(c.g, html)) && NameOne(p.rows, AllTasks(Scan(c.g, html)), k)
    ensures var first, second := Chosen(p.rows[0], k, closed), Chosen(p.rows[1], k, closed);
      Rowed(c, html, p, closed) == Restated(c.g, html, Only(k, second)) <==> |first| == |k.value|
  {
    hide Scan, Tokens, Restated, Put, PutAll, RowEdits, Readable, Sort;
    var first, second := Chosen(p.rows[0], k, closed), Chosen(p.rows[1], k, closed);
    Inside(c.g, html, k);
    TwoEdits(p.rows, AllTasks(Scan(c.g, html)), k, closed);
    SortedTwo(EditFor(k, first), EditFor(k, second));
    PutTwo(html, EditFor(k, first), EditFor(k, second));
    OneWrites(c.g, html, k, second);
    WrittenTwice(html, EditFor(k, second), first);
  }

  // ----- an empty row closed under both

  /** Closing an empty row twice leaves it reading xx. */
  lemma EmptyDoubles(c: Context, html: string, p: Proposal, k: Token, closed: set<ClosureRow>)
    requires Readable(c.g, html) && k in Tokens(Scan(c.g, html)) && NameOne(p.rows, AllTasks(Scan(c.g, html)), k)
    requires k.value == "" && p.rows[0] in closed && p.rows[1] in closed
    ensures Rowed(c, html, p, closed) == Restated(c.g, html, Only(k, "xx"))
  {
    hide Scan, Tokens, Restated, Put, PutAll, RowEdits, Readable, Sort;
    Inside(c.g, html, k);
    TwoEdits(p.rows, AllTasks(Scan(c.g, html)), k, closed);
    SortedTwo(EditFor(k, "x"), EditFor(k, "x"));
    PutTwo(html, EditFor(k, "x"), EditFor(k, "x"));
    OneWrites(c.g, html, k, "xx");
    TwoX(html, k.valueStart);
  }

  lemma TwoX(text: string, at: nat)
    requires at < |text|
    ensures Put(Put(text, Edit(at, at, "x")), Edit(at, at, "x")) == Put(text, Edit(at, at, "xx"))
  {
    var once := Put(text, Edit(at, at, "x"));
    assert once == text[..at] + "x" + text[at..];
    assert Slice(once, 0, at) == text[..at] && Slice(once, at, |once|) == "x" + text[at..];
    assert "x" + ("x" + text[at..]) == "xx" + text[at..];
  }

  lemma OnlyPlain(g: Grammar, html: string, k: Token, value: string)
    requires Readable(g, html) && Plain(value)
    ensures forall t :: t in Tokens(Scan(g, html)) ==> Plain(Only(k, value)(t))
  {
    hide Scan, Tokens;
    PlanIsLaid(g, html);
    forall t | t in Tokens(Scan(g, html)) ensures Plain(Only(k, value)(t)) { assert TokenReads(html, t); }
  }

  /** And so after the milestone round: the row still reads xx. */
  lemma StillDoubled(c: Context, html: string, p: Proposal, i: nat, closed: set<ClosureRow>)
    requires Readable(c.g, html) && i < |Tokens(Scan(c.g, html))|
    requires var k := Tokens(Scan(c.g, html))[i];
      NameOne(p.rows, AllTasks(Scan(c.g, html)), k) && k.value == "" && k.task.Some? && p.rows[0] in closed && p.rows[1] in closed
    ensures var after := Tokens(Scan(c.g, Final(c, html, p, closed))); |after| == |Tokens(Scan(c.g, html))| && after[i].value == "xx"
  {
    hide Scan, Tokens, Restated, Readable, Rowed, MarkerEdits, PutAll, Touched, SamePlan;
    var k, rowed := Tokens(Scan(c.g, html))[i], Rowed(c, html, p, closed);
    EmptyDoubles(c, html, p, k, closed);
    DoubledIsPlain();
    OnlyPlain(c.g, html, k, "xx");
    PlainMapped(c.g, html, Only(k, "xx"));
    var next := Scan(c.g, rowed);
    var touched := Touched(AllTasks(next), p.tickets);
    MarkersWrite(c.g, rowed, touched);
    var f := MarkHeads(AllTasks(next), touched);
    EditsRestate(c.g, rowed, MarkerEdits(Milestones(next), AllTasks(next), touched), f);
    LaidTokens(c.g, rowed);
    MarkHeadsPlain(rowed, Tokens(next), AllTasks(next), touched);
    PlainMapped(c.g, rowed, f);
    assert SameToken(Tokens(Scan(c.g, html))[i], Tokens(next)[i], Only(k, "xx"));
    assert SameToken(Tokens(next)[i], Tokens(Scan(c.g, Final(c, html, p, closed)))[i], f);
  }

  lemma LaidTokens(g: Grammar, html: string)
    requires Readable(g, html)
    ensures Laid(html, Tokens(Scan(g, html)), 0, |html|) && PlainTokens(Tokens(Scan(g, html)))
  {
    PlanIsLaid(g, html);
  }

  lemma DoubledIsPlain()
    ensures Plain("xx")
  {}

  /** The plan comparison refuses it: no closure writes xx. */
  lemma DoubledIsRefused(c: Context, path: string, html: string, p: Proposal, i: nat, closed: set<ClosureRow>)
    requires IsPlan(c.registry, path) && Readable(c.g, html) && i < |Tokens(Scan(c.g, html))|
    requires var k := Tokens(Scan(c.g, html))[i];
      NameOne(p.rows, AllTasks(Scan(c.g, html)), k) && k.value == "" && k.task.Some? && p.rows[0] in closed && p.rows[1] in closed
    ensures Final(c, html, p, closed) != html && !TextCheck(c, path, html, Final(c, html, p, closed)).Fine?
  {
    hide Scan, Tokens, Readable, Final, TextCheck, NameOne;
    StillDoubled(c, html, p, i, closed);
    if TextCheck(c, path, html, Final(c, html, p, closed)).Fine? {
      PlanAcceptedIsRewrite(c, path, html, Final(c, html, p, closed));
    }
  }
}
