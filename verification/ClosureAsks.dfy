/** planTicketAsk before and after a closure: the owner's choices leave every plan ticket's ask as it was, errors included. */
module ClosureAsks {
  import opened PlanScan
  import opened ScanOrder
  import opened AskedFor
  import AskedSame
  import opened ClosureAsked
  import opened ClosureTree
  import opened ClosureDelta
  import opened ClosureWrite
  import opened ClosureRows
  import opened ClosureAccepted
  import opened StableJson
  import opened AskCompare

  /** What a ticket's frontmatter and body say besides its state. */
  datatype TicketText = TicketText(prompt: string, title: Value, milestone: Value, dependsOn: Value, serves: Value)

  datatype Parsed<T> = Parsed(value: T) | Broken(path: string, message: string)

  /** The parsers an ask rests on: the declarations of a plan, and the parts of a ticket. */
  datatype Parsers = Parsers(declarations: string -> Parsed<seq<Declaration>>, ticket: string -> Parsed<TicketText>,
                             badCount: (nat, nat) -> string)

  /** Every task of a scanned plan holds its own tokens. */
  ghost predicate AllInside(tasks: seq<TaskSlice>) {
    forall t :: t in tasks ==> TokensInside(t)
  }

  /** planTicketAsk: the one task of this number, its checklist rows, the ticket's own words and the plan's declarations. */
  function PlanTicketAsk(r: Parsers, g: Grammar, html: string, ticket: string, number: nat, name: string): Resolved
    requires AllInside(AllTasks(Scan(g, html)))
  {
    match r.declarations(html)
    case Broken(path, message) => Unresolved(path, message)
    case Parsed(declarations) =>
      var tasks := AllTasks(Scan(g, html));
      var matches := Numbered(tasks, number);
      if |matches| != 1 then Unresolved(name, r.badCount(number, |matches|))
      else
        match r.ticket(ticket)
        case Broken(path, message) => Unresolved(path, message)
        case Parsed(t) =>
          NumberedIff(tasks, number);
          assert matches[0] in matches;
          Found(PlanAsk(t.prompt, t.title, t.milestone, t.dependsOn, t.serves, ChecklistRows(html, matches[0]), declarations))
  }

  lemma {:induction false} AsksNumbered(x: string, xs: seq<TaskSlice>, y: string, ys: seq<TaskSlice>, number: nat)
    requires AskedSame.SameAsks(x, xs, y, ys)
    ensures AskedSame.SameAsks(x, Numbered(xs, number), y, Numbered(ys, number))
    decreases |xs|
  {
    hide ChecklistRows, TokensInside;
    if xs != [] { AsksNumbered(x, xs[1..], y, ys[1..], number); }
  }

  lemma SameAsksInside(x: string, xs: seq<TaskSlice>, y: string, ys: seq<TaskSlice>)
    requires AskedSame.SameAsks(x, xs, y, ys)
    ensures AllInside(xs) && AllInside(ys)
  {
    hide TokensInside;
    forall t | t in xs ensures TokensInside(t) { var i :| 0 <= i < |xs| && xs[i] == t; }
    forall t | t in ys ensures TokensInside(t) { var i :| 0 <= i < |ys| && ys[i] == t; }
  }

  lemma SameAskFrom(r: Parsers, g: Grammar, x: string, y: string, ticket: string, after: string, number: nat, name: string)
    requires AskedSame.SameAsks(x, AllTasks(Scan(g, x)), y, AllTasks(Scan(g, y)))
    requires r.declarations(x) == r.declarations(y) && r.ticket(ticket) == r.ticket(after)
    ensures AllInside(AllTasks(Scan(g, x))) && AllInside(AllTasks(Scan(g, y)))
    ensures PlanTicketAsk(r, g, y, after, number, name) == PlanTicketAsk(r, g, x, ticket, number, name)
  {
    hide Scan, AllTasks, TokensInside, ChecklistRows;
    SameAsksInside(x, AllTasks(Scan(g, x)), y, AllTasks(Scan(g, y)));
    AsksNumbered(x, AllTasks(Scan(g, x)), y, AllTasks(Scan(g, y)), number);
  }

  /** The resolver of one plan ticket. */
  function Only(resolved: Resolved): Resolver {
    (s: Selection) => if s.PlanTicket? then resolved else Unresolved("", "")
  }

  lemma NothingToCompare(resolved: Resolved, s: Selection)
    requires s.PlanTicket? && resolved.Found? && Fits(s, resolved.ask)
    ensures Compare(Only(resolved), Only(resolved), [s]) == Unchanged
  {
    hide Compare;
    UnchangedIff(Only(resolved), Only(resolved), [s]);
    var a := resolved.ask;
    SameValue(a.title);
    SameValue(a.milestone);
    SameValue(a.dependsOn);
    SameValue(a.serves);
  }

  lemma SameValue(v: Value)
    requires Valid(v)
    ensures Same(v, v)
  {
    hide *;
    StableIffSame(v, v);
  }

  /**
   * Whatever the owner closes, the ask of every ticket of the plan is the same before and after: the same error where it
   * does not resolve, and where it does, a comparison that finds nothing. What the ticket says besides its state and what
   * the plan declares are read by parsers of their own, and are the same in both trees.
   */
  lemma ClosureNeverAltersTheAsk(r: Parsers, c: Context, html: string, p: Proposal, closed: set<ClosureRow>, s: Selection,
                                 ticket: string, after: string, number: nat, name: string)
    requires AskedSame.CalmPlan(c.g, html) && RowsGood(p.rows, AllTasks(Scan(c.g, html))) && s.PlanTicket?
    requires r.declarations(Final(c, html, p, closed)) == r.declarations(html) && r.ticket(after) == r.ticket(ticket)
    ensures AllInside(AllTasks(Scan(c.g, html))) && AllInside(AllTasks(Scan(c.g, Final(c, html, p, closed))))
    ensures PlanTicketAsk(r, c.g, Final(c, html, p, closed), after, number, name) == PlanTicketAsk(r, c.g, html, ticket, number, name)
    ensures var was, now := PlanTicketAsk(r, c.g, html, ticket, number, name), PlanTicketAsk(r, c.g, Final(c, html, p, closed), after, number, name);
      was.Found? && Fits(s, was.ask) ==> Compare(Only(was), Only(now), [s]) == Unchanged
  {
    hide *;
    ClosureKeepsAsks(c, html, p, closed);
    SameAskFrom(r, c.g, html, Final(c, html, p, closed), ticket, after, number, name);
    var was := PlanTicketAsk(r, c.g, html, ticket, number, name);
    if was.Found? && Fits(s, was.ask) { NothingToCompare(was, s); }
  }
}
