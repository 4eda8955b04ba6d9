/** Closing tickets never alters the ask of any ticket of the plan. */
module ClosureAsked {
  import opened Text
  import opened PlanScan
  import opened ScanOrder
  import opened Rewrite
  import opened AskedFor
  import opened AskedSame
  import opened ClosureTree
  import opened ClosureDelta
  import opened ClosureWrite
  import opened ClosureRows
  import opened ClosureAccepted

  lemma CalmMapped(g: Grammar, html: string, f: Token -> string)
    requires CalmPlan(g, html) && forall k :: k in Tokens(Scan(g, html)) ==> Calm(f(k))
    ensures CalmPlan(g, Restated(g, html, f))
  {
    PlainMapped(g, html, f);
    var x, y := Tokens(Scan(g, html)), Tokens(Scan(g, Restated(g, html, f)));
    forall k | k in y ensures Calm(k.value) {
      var i :| 0 <= i < |y| && y[i] == k;
      assert SameToken(x[i], y[i], f) && x[i] in x;
    }
  }

  lemma ChosenValuesAreCalm(tokens: seq<Token>, rows: seq<ClosureRow>, closed: set<ClosureRow>, tasks: seq<TaskSlice>, touched: set<string>)
    requires forall k :: k in tokens ==> Calm(k.value)
    ensures forall k :: k in tokens ==> Calm(CloseRows(rows, closed)(k)) && Calm(MarkHeads(tasks, touched)(k))
  {}

  lemma AsksTwice(x: string, xs: seq<TaskSlice>, y: string, ys: seq<TaskSlice>, z: string, zs: seq<TaskSlice>)
    requires SameAsks(x, xs, y, ys) && SameAsks(y, ys, z, zs)
    ensures SameAsks(x, xs, z, zs)
  {}

  lemma CalmValues(g: Grammar, html: string)
    requires CalmPlan(g, html)
    ensures Readable(g, html) && forall k :: k in Tokens(Scan(g, html)) ==> Calm(k.value)
  {}

  lemma RowsKeepAsks(c: Context, html: string, p: Proposal, closed: set<ClosureRow>)
    requires CalmPlan(c.g, html) && RowsGood(p.rows, AllTasks(Scan(c.g, html)))
    ensures CalmPlan(c.g, Rowed(c, html, p, closed))
    ensures SameAsks(html, AllTasks(Scan(c.g, html)), Rowed(c, html, p, closed), AllTasks(Scan(c.g, Rowed(c, html, p, closed))))
  {
    hide *;
    CalmValues(c.g, html);
    RowedPlan(c, html, p, closed);
    ChosenValuesAreCalm(Tokens(Scan(c.g, html)), p.rows, closed, [], {});
    AsksUnchanged(c.g, html, CloseRows(p.rows, closed));
    CalmMapped(c.g, html, CloseRows(p.rows, closed));
  }

  lemma MarkersKeepAsks(g: Grammar, html: string, tasks: seq<TaskSlice>, touched: set<string>)
    requires CalmPlan(g, html)
    ensures var after := Restated(g, html, MarkHeads(tasks, touched)); SameAsks(html, AllTasks(Scan(g, html)), after, AllTasks(Scan(g, after)))
  {
    hide *;
    CalmValues(g, html);
    ChosenValuesAreCalm(Tokens(Scan(g, html)), [], {}, tasks, touched);
    AsksUnchanged(g, html, MarkHeads(tasks, touched));
  }

  lemma FinalFollowsRows(c: Context, html: string, p: Proposal, closed: set<ClosureRow>)
    requires CalmPlan(c.g, html) && RowsGood(p.rows, AllTasks(Scan(c.g, html)))
    ensures var tasks := AllTasks(Scan(c.g, Rowed(c, html, p, closed)));
      Final(c, html, p, closed) == Restated(c.g, Rowed(c, html, p, closed), MarkHeads(tasks, Touched(tasks, p.tickets)))
  {
    CalmValues(c.g, html);
    FinalPlan(c, html, p, closed);
  }

  /** Whatever the owner closes, every checklist row of every task of the plan reads as it did. */
  lemma ClosureKeepsAsks(c: Context, html: string, p: Proposal, closed: set<ClosureRow>)
    requires CalmPlan(c.g, html) && RowsGood(p.rows, AllTasks(Scan(c.g, html)))
    ensures SameAsks(html, AllTasks(Scan(c.g, html)), Final(c, html, p, closed), AllTasks(Scan(c.g, Final(c, html, p, closed))))
  {
    hide *;
    var rowed := Rowed(c, html, p, closed);
    var tasks := AllTasks(Scan(c.g, rowed));
    RowsKeepAsks(c, html, p, closed);
    FinalFollowsRows(c, html, p, closed);
    MarkersKeepAsks(c.g, rowed, tasks, Touched(tasks, p.tickets));
    AsksTwice(html, AllTasks(Scan(c.g, html)), rowed, tasks, Final(c, html, p, closed), AllTasks(Scan(c.g, Final(c, html, p, closed))));
  }
}
