/** The tree a closure writes is one the closure proof accepts. */
module ClosureAccepted {
  import opened Text
  import opened PlanScan
  import opened Holes
  import opened Splice
  import opened Sorting
  import opened ScanOrder
  import opened Rewrite
  import opened ClosureTree
  import opened ClosureDelta
  import opened ClosureExact
  import opened ClosureWrite
  import opened ClosureRows
  import opened EditPlan

  // ----- the same tasks in the scan of the rewritten plan

  lemma {:induction false} SameAllTasks(x: seq<Section>, y: seq<Section>, f: Token -> string)
    requires SamePlan(x, y, f)
    ensures SameTasks(AllTasks(x), AllTasks(y), f)
  {
    if x != [] {
      SameAllTasks(x[1..], y[1..], f);
      SameTasksAppend(x[0].tasks, y[0].tasks, AllTasks(x[1..]), AllTasks(y[1..]), f);
    }
  }

  lemma {:induction false} SameTasksAppend(x: seq<TaskSlice>, y: seq<TaskSlice>, x': seq<TaskSlice>, y': seq<TaskSlice>, f: Token -> string)
    requires SameTasks(x, y, f) && SameTasks(x', y', f)
    ensures SameTasks(x + x', y + y', f)
  {
    if x == [] {
      assert x + x' == x' && y + y' == y';
    } else {
      SameTasksAppend(x[1..], y[1..], x', y', f);
      assert (x + x')[1..] == x[1..] + x' && (y + y')[1..] == y[1..] + y';
    }
  }

  lemma {:induction false} SameNumbered(x: seq<TaskSlice>, y: seq<TaskSlice>, f: Token -> string, n: nat)
    requires SameTasks(x, y, f)
    ensures SameTasks(Numbered(x, n), Numbered(y, n), f)
    ensures |Numbered(x, n)| == |Numbered(y, n)|
  {
    if x != [] {
      SameNumbered(x[1..], y[1..], f, n);
      if x[0].number == n {
        assert Numbered(x, n)[1..] == Numbered(x[1..], n) && Numbered(y, n)[1..] == Numbered(y[1..], n);
      }
    }
  }

  // ----- the marker substitutions

  /** The value each token is given the second time: a touched heading's marker, every other token its own. */
  function MarkHeads(tasks: seq<TaskSlice>, touched: set<string>): Token -> string {
    (k: Token) => if k.task.None? && k.milestone in touched then MarkerFor(tasks, k.milestone) else k.value
  }

  lemma {:induction false} MarkerEditsAre(heads: seq<Token>, tasks: seq<TaskSlice>, touched: set<string>)
    requires forall k :: k in heads ==> k.task.None?
    ensures forall e :: e in MarkerEdits(heads, tasks, touched) ==> ThroughToken(heads, e, MarkHeads(tasks, touched))
    ensures forall k :: k in heads && k.milestone in touched ==> EditFor(k, MarkHeads(tasks, touched)(k)) in MarkerEdits(heads, tasks, touched)
  {
    if heads != [] {
      var rest, f := heads[1..], MarkHeads(tasks, touched);
      forall k | k in rest ensures k in heads {}
      MarkerEditsAre(rest, tasks, touched);
      forall e | e in MarkerEdits(heads, tasks, touched) ensures ThroughToken(heads, e, f) {
        if e in MarkerEdits(rest, tasks, touched) {
          assert ThroughToken(rest, e, f);
          var k :| k in rest && e == EditFor(k, f(k));
          assert k in heads;
        } else {
          assert e == EditFor(heads[0], f(heads[0])) && heads[0] in heads;
        }
      }
      assert heads == [heads[0]] + rest;
    }
  }

  lemma {:induction false} MarkersApart(heads: seq<Token>, tasks: seq<TaskSlice>, touched: set<string>)
    requires forall i, j :: 0 <= i < j < |heads| ==> heads[i].valueStart != heads[j].valueStart
    ensures DistinctBy(MarkerEdits(heads, tasks, touched), StartOf())
    ensures forall e :: e in MarkerEdits(heads, tasks, touched) ==> exists k :: k in heads && e.start == k.valueStart
  {
    if heads != [] {
      var rest := heads[1..];
      forall i, j | 0 <= i < j < |rest| ensures rest[i].valueStart != rest[j].valueStart {
        assert rest[i] == heads[i + 1] && rest[j] == heads[j + 1];
      }
      MarkersApart(rest, tasks, touched);
      forall e | e in MarkerEdits(rest, tasks, touched) ensures e.start != heads[0].valueStart && exists k :: k in heads && e.start == k.valueStart {
        var k :| k in rest && e.start == k.valueStart;
        var i :| 0 <= i < |rest| && rest[i] == k;
        assert heads[i + 1] == k && k in heads;
      }
      assert heads[0] in heads;
      DistinctAfter(heads[0], tasks, touched, MarkerEdits(rest, tasks, touched));
    }
  }

  lemma DistinctAfter(head: Token, tasks: seq<TaskSlice>, touched: set<string>, later: seq<Edit>)
    requires DistinctBy(later, StartOf()) && forall e :: e in later ==> e.start != head.valueStart
    ensures DistinctBy([Edit(head.valueStart, head.valueEnd, MarkerFor(tasks, head.milestone))] + later, StartOf())
  {
    var all := [Edit(head.valueStart, head.valueEnd, MarkerFor(tasks, head.milestone))] + later;
    forall i, j | 0 <= i < j < |all| ensures StartOf()(all[i]) != StartOf()(all[j]) {
      assert all[j] == later[j - 1] && later[j - 1] in later;
      if i > 0 { assert all[i] == later[i - 1]; }
    }
  }

  ghost predicate StartsRise(tokens: seq<Token>) {
    forall i, j :: 0 <= i < j < |tokens| ==> tokens[i].valueStart < tokens[j].valueStart
  }

  lemma RiseCons(head: Token, rest: seq<Token>)
    requires StartsRise(rest) && forall k :: k in rest ==> head.valueStart < k.valueStart
    ensures StartsRise([head] + rest)
  {
    var all := [head] + rest;
    forall i, j | 0 <= i < j < |all| ensures all[i].valueStart < all[j].valueStart {
      assert all[j] == rest[j - 1] && rest[j - 1] in rest;
      if i > 0 { assert all[i] == rest[i - 1]; }
    }
  }

  lemma {:induction false} HeadsInOrder(html: string, sections: seq<Section>, lo: nat)
    requires Laid(html, Tokens(sections), lo, |html|)
    ensures StartsRise(Milestones(sections))
  {
    if sections != [] {
      var head, rows, rest := sections[0].head, TaskTokens(sections[0].tasks), Tokens(sections[1..]);
      assert Tokens(sections) == [head] + (rows + rest);
      HeadFirst(html, head, rows + rest, lo);
      var mid := LaidRest(html, rows, rest, head.valueEnd + 1);
      HeadsInOrder(html, sections[1..], mid);
      HeadsAmongTokens(sections[1..]);
      forall k | k in Milestones(sections[1..]) ensures head.valueStart < k.valueStart { assert k in rows + rest; }
      RiseCons(head, Milestones(sections[1..]));
    }
  }

  lemma HeadFirst(html: string, head: Token, rest: seq<Token>, lo: nat)
    requires Laid(html, [head] + rest, lo, |html|)
    ensures Laid(html, rest, head.valueEnd + 1, |html|)
    ensures forall k :: k in rest ==> head.valueStart < k.valueStart
  {
    assert ([head] + rest)[1..] == rest && head in [head] + rest && TokenReads(html, head);
    forall k | k in rest ensures k in [head] + rest {}
    TokensInOrder(rest, head.valueEnd + 1, |html|);
  }

  lemma {:induction false} LaidRest(html: string, x: seq<Token>, y: seq<Token>, lo: nat) returns (mid: nat)
    requires Laid(html, x + y, lo, |html|)
    ensures Laid(html, y, mid, |html|)
  {
    if x == [] {
      assert x + y == y;
      mid := lo;
    } else {
      assert (x + y)[1..] == x[1..] + y;
      forall k | k in x[1..] + y ensures k in x + y {}
      mid := LaidRest(html, x[1..], y, (x + y)[0].valueEnd + 1);
    }
  }

  lemma MarkersWrite(g: Grammar, html: string, touched: set<string>)
    requires Readable(g, html)
    ensures var sections := Scan(g, html);
      Writes(Tokens(sections), MarkerEdits(Milestones(sections), AllTasks(sections), touched), MarkHeads(AllTasks(sections), touched))
  {
    PlanIsLaid(g, html);
    HeadsInOrder(html, Scan(g, html), 0);
    ScanIndexed(g, html);
    ListedTokens(Scan(g, html));
    MarkersWriteTo(Tokens(Scan(g, html)), Milestones(Scan(g, html)), AllTasks(Scan(g, html)), touched);
  }

  lemma MarkersWriteTo(tokens: seq<Token>, heads: seq<Token>, tasks: seq<TaskSlice>, touched: set<string>)
    requires StartsRise(heads) && (forall k :: k in heads ==> k.task.None?) && (forall t :: t in tasks ==> Indexed(t))
    requires forall k :: k in tokens <==> k in heads || k in TaskTokens(tasks)
    ensures Writes(tokens, MarkerEdits(heads, tasks, touched), MarkHeads(tasks, touched))
  {
    var f := MarkHeads(tasks, touched);
    MarkerEditsAre(heads, tasks, touched);
    MarkersApart(heads, tasks, touched);
    forall e | e in MarkerEdits(heads, tasks, touched) ensures ThroughToken(tokens, e, f) {
      assert ThroughToken(heads, e, f);
      var k :| k in heads && e == EditFor(k, f(k));
      assert k in tokens;
    }
    forall k | k in tokens && f(k) != k.value ensures EditFor(k, f(k)) in MarkerEdits(heads, tasks, touched) {
      RowsHaveTasks(tasks, k);
    }
  }

  lemma RowsHaveTasks(tasks: seq<TaskSlice>, k: Token)
    requires forall t :: t in tasks ==> Indexed(t)
    ensures k in TaskTokens(tasks) ==> k.task.Some?
  {
    if k in TaskTokens(tasks) {
      TokenOfTask(tasks, k);
      var t :| t in tasks && k in t.tokens;
      var i :| 0 <= i < |t.tokens| && t.tokens[i] == k;
      assert Indexed(t);
    }
  }

  // ----- the plan text a closure leaves

  /** The plan after the row substitutions. */
  function Rowed(c: Context, html: string, p: Proposal, closed: set<ClosureRow>): string {
    match RowEdits(p.rows, AllTasks(Scan(c.g, html)), closed)
    case None => html
    case Some(edits) => PutAll(html, Sort(edits, Descending()))
  }

  /** And after the milestone substitutions. */
  function Final(c: Context, html: string, p: Proposal, closed: set<ClosureRow>): string {
    var next := Scan(c.g, Rowed(c, html, p, closed));
    PutAll(Rowed(c, html, p, closed),
           Sort(MarkerEdits(Milestones(next), AllTasks(next), Touched(AllTasks(next), p.tickets)), Descending()))
  }

  lemma CloseRowsPlain(g: Grammar, html: string, rows: seq<ClosureRow>, closed: set<ClosureRow>)
    requires Readable(g, html)
    ensures forall k :: k in Tokens(Scan(g, html)) ==> Plain(CloseRows(rows, closed)(k))
  {
    PlanIsLaid(g, html);
    forall k | k in Tokens(Scan(g, html)) ensures Plain(CloseRows(rows, closed)(k)) {
      assert TokenReads(html, k);
    }
  }

  lemma StillPlain(x: seq<Token>, y: seq<Token>, f: Token -> string)
    requires SameTokens(x, y, f) && forall k :: k in x ==> Plain(f(k))
    ensures PlainTokens(y)
  {
    forall k | k in y ensures '<' !in k.value {
      var i :| 0 <= i < |y| && y[i] == k;
      assert SameToken(x[i], y[i], f) && x[i] in x;
    }
  }

  lemma PlainMapped(g: Grammar, html: string, f: Token -> string)
    requires Readable(g, html) && forall k :: k in Tokens(Scan(g, html)) ==> Plain(f(k))
    ensures Readable(g, Restated(g, html, f))
    ensures SameTokens(Tokens(Scan(g, html)), Tokens(Scan(g, Restated(g, html, f))), f)
  {
    ScanAfterWriting(g, html, f);
    SamePlanTokens(Scan(g, html), Scan(g, Restated(g, html, f)), f);
    StillPlain(Tokens(Scan(g, html)), Tokens(Scan(g, Restated(g, html, f))), f);
  }

  /** Closing rows restates the plan: the same milestones, tasks and rows, closed rows reading x. */
  lemma RowedPlan(c: Context, html: string, p: Proposal, closed: set<ClosureRow>)
    requires Readable(c.g, html) && RowsGood(p.rows, AllTasks(Scan(c.g, html)))
    ensures Rowed(c, html, p, closed) == Restated(c.g, html, CloseRows(p.rows, closed))
    ensures SamePlan(Scan(c.g, html), Scan(c.g, Rowed(c, html, p, closed)), CloseRows(p.rows, closed))
    ensures Readable(c.g, Rowed(c, html, p, closed))
  {
    var f := CloseRows(p.rows, closed);
    RowsWrite(c.g, html, p.rows, closed);
    EditsRestate(c.g, html, RowEdits(p.rows, AllTasks(Scan(c.g, html)), closed).value, f);
    CloseRowsPlain(c.g, html, p.rows, closed);
    ScanAfterWriting(c.g, html, f);
    PlainMapped(c.g, html, f);
  }

  function FinalMarks(c: Context, html: string, p: Proposal, closed: set<ClosureRow>): Token -> string {
    var tasks := AllTasks(Scan(c.g, Rowed(c, html, p, closed)));
    MarkHeads(tasks, Touched(tasks, p.tickets))
  }

  lemma MarkHeadsPlain(html: string, tokens: seq<Token>, tasks: seq<TaskSlice>, touched: set<string>)
    requires Laid(html, tokens, 0, |html|) && PlainTokens(tokens)
    ensures forall k :: k in tokens ==> Plain(MarkHeads(tasks, touched)(k))
  {
    forall k | k in tokens ensures Plain(MarkHeads(tasks, touched)(k)) {
      assert TokenReads(html, k);
    }
  }

  lemma FinalPlan(c: Context, html: string, p: Proposal, closed: set<ClosureRow>)
    requires Readable(c.g, html) && RowsGood(p.rows, AllTasks(Scan(c.g, html)))
    ensures var rowed, f := Rowed(c, html, p, closed), FinalMarks(c, html, p, closed);
      && Final(c, html, p, closed) == Restated(c.g, rowed, f)
      && SamePlan(Scan(c.g, rowed), Scan(c.g, Final(c, html, p, closed)), f)
  {
    var rowed, f := Rowed(c, html, p, closed), FinalMarks(c, html, p, closed);
    RowedPlan(c, html, p, closed);
    var next := Scan(c.g, rowed);
    MarkersWrite(c.g, rowed, Touched(AllTasks(next), p.tickets));
    EditsRestate(c.g, rowed, MarkerEdits(Milestones(next), AllTasks(next), Touched(AllTasks(next), p.tickets)), f);
    PlanIsLaid(c.g, rowed);
    MarkHeadsPlain(rowed, Tokens(next), AllTasks(next), Touched(AllTasks(next), p.tickets));
    ScanAfterWriting(c.g, rowed, f);
  }

  /** The two rounds of substitution together are one rewriting of status values within the vocabulary. */
  lemma FinalIsRewriting(c: Context, html: string, p: Proposal, closed: set<ClosureRow>)
    requires Readable(c.g, html) && RowsGood(p.rows, AllTasks(Scan(c.g, html)))
    ensures IsRewriting(c.g, html, Final(c, html, p, closed),
                        Mapped(Tokens(Scan(c.g, Rowed(c, html, p, closed))), FinalMarks(c, html, p, closed)))
  {
    var rowed, f1, f2 := Rowed(c, html, p, closed), CloseRows(p.rows, closed), FinalMarks(c, html, p, closed);
    var x, y := Tokens(Scan(c.g, html)), Tokens(Scan(c.g, rowed));
    RowedPlan(c, html, p, closed);
    FinalPlan(c, html, p, closed);
    SamePlanTokens(Scan(c.g, html), Scan(c.g, rowed), f1);
    CloseRowsPlain(c.g, html, p.rows, closed);
    SpansAfterRestating(c.g, html, f1, rowed);
    AllowedTwice(x, y, f1, f2, p.rows, closed, AllTasks(Scan(c.g, rowed)), Touched(AllTasks(Scan(c.g, rowed)), p.tickets));
  }

  lemma SpansAfterRestating(g: Grammar, html: string, f: Token -> string, html': string)
    requires Readable(g, html) && html' == Restated(g, html, f) && forall k :: k in Tokens(Scan(g, html)) ==> Plain(f(k))
    ensures Gaps(html', Spans(Tokens(Scan(g, html'))), 0) == Gaps(html, Spans(Tokens(Scan(g, html))), 0)
  {
    var tokens := Tokens(Scan(g, html));
    ScanAfterWriting(g, html, f);
    WovenGaps(Gaps(html, Spans(tokens), 0), Mapped(tokens, f));
  }

  lemma AllowedTwice(x: seq<Token>, y: seq<Token>, f1: Token -> string, f2: Token -> string, rows: seq<ClosureRow>,
                     closed: set<ClosureRow>, tasks: seq<TaskSlice>, touched: set<string>)
    requires SameTokens(x, y, f1) && f1 == CloseRows(rows, closed) && f2 == MarkHeads(tasks, touched)
    ensures AllowedAll(x, Mapped(y, f2))
  {
    forall k | 0 <= k < |x| ensures Mapped(y, f2)[k] == x[k].value || Allowed(TokenMark(x[k]).kind, Mapped(y, f2)[k]) {
      assert SameToken(x[k], y[k], f1);
    }
  }
}
