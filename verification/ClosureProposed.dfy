/** What a proposal holds: the selected tickets that were built, their rows in plan order, and the tickets left over. */
module ClosureProposed {
  import opened Text
  import opened PlanScan
  import opened ClosureTree
  import opened ClosureDelta
  import opened ClosureWrite
  import opened ClosureRows

  // ----- picking from a list in its order

  ghost predicate Rising(at: seq<nat>) {
    forall i, j :: 0 <= i < j < |at| ==> at[i] < at[j]
  }

  /** What stands in `all` at these rising places, and the places are exactly those whose ticket is kept. */
  ghost predicate PickedAt(all: seq<string>, picked: seq<string>, at: seq<nat>, keep: string -> bool) {
    && Rising(at) && |at| == |picked|
    && (forall k :: 0 <= k < |at| ==> at[k] < |all| && picked[k] == all[at[k]])
    && (forall i :: 0 <= i < |all| ==> (i in at <==> keep(all[i])))
  }

  ghost predicate Picks(all: seq<string>, picked: seq<string>, keep: string -> bool) {
    exists at :: PickedAt(all, picked, at, keep)
  }

  /** With no build named every ticket is closable, else those it built. */
  ghost function Built(built: Option<set<string>>): string -> bool {
    id => built.None? || id in built.value
  }

  ghost function Unbuilt(built: Option<set<string>>): string -> bool {
    id => built.Some? && id !in built.value
  }

  function Later(at: seq<nat>): (r: seq<nat>)
    ensures |r| == |at| && forall k :: 0 <= k < |at| ==> r[k] == at[k] + 1
  {
    seq(|at|, k requires 0 <= k < |at| => at[k] + 1)
  }

  lemma LaterHas(at: seq<nat>, i: nat)
    ensures i in Later(at) <==> i > 0 && i - 1 in at
  {
    if i > 0 && i - 1 in at {
      var k :| 0 <= k < |at| && at[k] == i - 1;
      assert Later(at)[k] == i;
    }
  }

  lemma LaterRises(at: seq<nat>)
    requires Rising(at)
    ensures Rising(Later(at)) && Rising([0] + Later(at))
  {}

  lemma PickFirst(all: seq<string>, picked: seq<string>, at: seq<nat>, keep: string -> bool)
    requires all != [] && PickedAt(all[1..], picked, at, keep) && keep(all[0])
    ensures Picks(all, [all[0]] + picked, keep)
  {
    hide Rising;
    LaterRises(at);
    var later := [0] + Later(at);
    forall k | 0 <= k < |later| ensures later[k] < |all| && ([all[0]] + picked)[k] == all[later[k]] {
      if k > 0 { assert later[k] == at[k - 1] + 1 && all[1..][at[k - 1]] == all[later[k]]; }
    }
    forall i | 0 <= i < |all| ensures i in later <==> keep(all[i]) {
      LaterHas(at, i);
      if i > 0 { assert all[i] == all[1..][i - 1]; }
    }
    assert PickedAt(all, [all[0]] + picked, later, keep);
  }

  lemma SkipFirst(all: seq<string>, picked: seq<string>, at: seq<nat>, keep: string -> bool)
    requires all != [] && PickedAt(all[1..], picked, at, keep) && !keep(all[0])
    ensures Picks(all, picked, keep)
  {
    hide Rising;
    LaterRises(at);
    var later := Later(at);
    forall i | 0 <= i < |all| ensures i in later <==> keep(all[i]) {
      LaterHas(at, i);
      if i > 0 { assert all[i] == all[1..][i - 1]; }
    }
    assert PickedAt(all, picked, later, keep);
  }

  lemma PickedCons(all: seq<string>, picked: seq<string>, at: seq<nat>, keep: string -> bool)
    requires all != [] && PickedAt(all[1..], picked, at, keep)
    ensures Picks(all, if keep(all[0]) then [all[0]] + picked else picked, keep)
  {
    hide PickedAt, Picks;
    if keep(all[0]) { PickFirst(all, picked, at, keep); } else { SkipFirst(all, picked, at, keep); }
  }

  lemma {:induction false} KeptPicks(tickets: seq<string>, built: Option<set<string>>)
    ensures Picks(tickets, Kept(tickets, built, true), Built(built)) && Picks(tickets, Kept(tickets, built, false), Unbuilt(built))
  {
    if tickets == [] {
      assert PickedAt([], [], [], Built(built)) && PickedAt([], [], [], Unbuilt(built));
    } else {
      KeptPicks(tickets[1..], built);
      var yes :| PickedAt(tickets[1..], Kept(tickets[1..], built, true), yes, Built(built));
      var no :| PickedAt(tickets[1..], Kept(tickets[1..], built, false), no, Unbuilt(built));
      PickedCons(tickets, Kept(tickets[1..], built, true), yes, Built(built));
      PickedCons(tickets, Kept(tickets[1..], built, false), no, Unbuilt(built));
      KeptStep(tickets, built);
    }
  }

  lemma KeptStep(tickets: seq<string>, built: Option<set<string>>)
    requires tickets != []
    ensures Kept(tickets, built, true) == if Built(built)(tickets[0]) then [tickets[0]] + Kept(tickets[1..], built, true) else Kept(tickets[1..], built, true)
    ensures Kept(tickets, built, false) == if Unbuilt(built)(tickets[0]) then [tickets[0]] + Kept(tickets[1..], built, false) else Kept(tickets[1..], built, false)
  {}

  lemma PicksHas(all: seq<string>, picked: seq<string>, keep: string -> bool)
    requires Picks(all, picked, keep)
    ensures forall id :: id in picked <==> id in all && keep(id)
  {
    var at :| PickedAt(all, picked, at, keep);
    forall id ensures id in picked <==> id in all && keep(id) {
      if id in picked {
        var k :| 0 <= k < |picked| && picked[k] == id;
        assert at[k] in at;
      }
      if id in all && keep(id) {
        var i :| 0 <= i < |all| && all[i] == id;
        var k :| 0 <= k < |at| && at[k] == i;
      }
    }
  }

  // ----- the rows, ticket by ticket and row by row

  /** One of the tasks, and the only one, carries this number. */
  ghost predicate OnlyTaskOf(tasks: seq<TaskSlice>, number: nat, t: TaskSlice) {
    exists i :: 0 <= i < |tasks| && tasks[i] == t && forall j :: 0 <= j < |tasks| ==> (tasks[j].number == number <==> j == i)
  }

  ghost predicate NamesItself(c: Context, tree: Tree, path: string, id: string) {
    path in tree && tree[path].Utf8? && c.read(tree[path].text, false).Some? && c.read(tree[path].text, false).value.id == id
  }

  /** A ticket that resolves: one task carries its number, and its file carries its id. */
  ghost predicate Resolved(c: Context, tree: Tree, source: PlanSource, tasks: seq<TaskSlice>, id: string, t: TaskSlice) {
    TicketNumber(id) == Some(t.number) && OnlyTaskOf(tasks, t.number, t) && NamesItself(c, tree, TicketPath(source, id), id)
  }

  /** Rows a and b stand in the order of their tickets, and of one ticket in the order of their places. */
  ghost predicate InOrder(rows: seq<ClosureRow>, of: seq<nat>, a: int, b: int)
    requires |of| == |rows| && 0 <= a < b < |rows|
  {
    of[a] < of[b] || (of[a] == of[b] && rows[a].index < rows[b].index)
  }

  ghost predicate RowOfTask(row: ClosureRow, path: string, id: string, t: TaskSlice) {
    row.path == path && row.ticket == id && row.number == t.number && row.index < |t.tokens| && row.marker == t.tokens[row.index].value
  }

  ghost predicate Covers(rows: seq<ClosureRow>, of: seq<nat>, k: int, j: int) {
    |of| == |rows| && exists a :: 0 <= a < |rows| && of[a] == k && rows[a].index == j
  }

  /** One row for each token of each ticket's task, in order; `of` and `own` say which ticket and which task. */
  ghost predicate RowsAt(rows: seq<ClosureRow>, of: seq<nat>, own: seq<TaskSlice>, path: string, tickets: seq<string>) {
    && |of| == |rows| && |own| == |tickets|
    && (forall a :: 0 <= a < |rows| ==> of[a] < |tickets| && RowOfTask(rows[a], path, tickets[of[a]], own[of[a]]))
    && (forall a, b :: 0 <= a < b < |rows| ==> InOrder(rows, of, a, b))
    && (forall k, j :: 0 <= k < |own| && 0 <= j < |own[k].tokens| ==> Covers(rows, of, k, j))
  }

  lemma {:induction false} OneNumbered(tasks: seq<TaskSlice>, n: nat)
    requires |Numbered(tasks, n)| == 1
    ensures OnlyTaskOf(tasks, n, Numbered(tasks, n)[0])
  {
    if tasks[0].number == n {
      NumberedIff(tasks[1..], n);
      assert Numbered(tasks[1..], n) == [];
      forall j | 0 <= j < |tasks| ensures tasks[j].number == n <==> j == 0 {
        if j > 0 { assert tasks[j] == tasks[1..][j - 1] && tasks[1..][j - 1] in tasks[1..]; }
      }
      assert tasks[0] == Numbered(tasks, n)[0];
    } else {
      OneNumbered(tasks[1..], n);
      var i :| 0 <= i < |tasks[1..]| && tasks[1..][i] == Numbered(tasks, n)[0]
        && forall j :: 0 <= j < |tasks[1..]| ==> (tasks[1..][j].number == n <==> j == i);
      assert tasks[i + 1] == Numbered(tasks, n)[0];
      forall j | 0 <= j < |tasks| ensures tasks[j].number == n <==> j == i + 1 {
        if j > 0 { assert tasks[j] == tasks[1..][j - 1]; }
      }
    }
  }

  lemma {:induction false} NoneNumbered(tasks: seq<TaskSlice>, n: nat)
    requires forall u :: u in tasks ==> u.number != n
    ensures Numbered(tasks, n) == []
  {
    if tasks != [] { NoneNumbered(tasks[1..], n); }
  }

  lemma {:induction false} OnlyOneNumbered(tasks: seq<TaskSlice>, n: nat, t: TaskSlice)
    requires OnlyTaskOf(tasks, n, t)
    ensures Numbered(tasks, n) == [t]
  {
    var i :| 0 <= i < |tasks| && tasks[i] == t && forall j :: 0 <= j < |tasks| ==> (tasks[j].number == n <==> j == i);
    if i == 0 {
      NumberedIff(tasks[1..], n);
      forall u | u in tasks[1..] ensures u.number != n {
        var j :| 0 <= j < |tasks[1..]| && tasks[1..][j] == u;
        assert tasks[j + 1] == u;
      }
      NoneNumbered(tasks[1..], n);
    } else {
      forall j | 0 <= j < |tasks[1..]| ensures tasks[1..][j].number == n <==> j == i - 1 { assert tasks[1..][j] == tasks[j + 1]; }
      OnlyOneNumbered(tasks[1..], n, t);
    }
  }

  lemma ResolvesIff(c: Context, tree: Tree, source: PlanSource, tasks: seq<TaskSlice>, id: string)
    ensures Resolves(c, tree, source, tasks, id) <==> exists t :: Resolved(c, tree, source, tasks, id, t)
    ensures Resolves(c, tree, source, tasks, id) ==>
      Resolved(c, tree, source, tasks, id, Numbered(tasks, TicketNumber(id).value)[0])
  {
    if TicketNumber(id).Some? {
      var n := TicketNumber(id).value;
      if |Numbered(tasks, n)| == 1 {
        OneNumbered(tasks, n);
        NumberedIff(tasks, n);
        assert Numbered(tasks, n)[0] in Numbered(tasks, n);
        assert Resolves(c, tree, source, tasks, id) ==> Resolved(c, tree, source, tasks, id, Numbered(tasks, n)[0]);
      }
      if t :| Resolved(c, tree, source, tasks, id, t) {
        OnlyOneNumbered(tasks, n, t);
        assert Resolves(c, tree, source, tasks, id);
      }
    }
  }

  /** The rows of one more ticket in front. */
  lemma RowsFirst(first: seq<ClosureRow>, rest: seq<ClosureRow>, of: seq<nat>, own: seq<TaskSlice>, path: string, id: string, t: TaskSlice, tickets: seq<string>)
    requires RowsAt(rest, of, own, path, tickets) && |first| == |t.tokens|
    requires forall j :: 0 <= j < |first| ==> RowOfTask(first[j], path, id, t) && first[j].index == j
    ensures exists of' :: RowsAt(first + rest, of', [t] + own, path, [id] + tickets)
  {
    var rows, of' := first + rest, seq(|first|, i => 0) + Later(of);
    forall a | 0 <= a < |rows| ensures of'[a] < |tickets| + 1 && RowOfTask(rows[a], path, ([id] + tickets)[of'[a]], ([t] + own)[of'[a]]) {
      if a >= |first| { assert rows[a] == rest[a - |first|] && of'[a] == of[a - |first|] + 1; }
    }
    forall a, b | 0 <= a < b < |rows| ensures InOrder(rows, of', a, b) {
      if a >= |first| { assert InOrder(rest, of, a - |first|, b - |first|); }
    }
    forall k, j | 0 <= k < |own| + 1 && 0 <= j < |([t] + own)[k].tokens| ensures Covers(rows, of', k, j) {
      if k == 0 {
        assert of'[j] == 0 && rows[j] == first[j];
      } else {
        assert Covers(rest, of, k - 1, j);
        var a :| 0 <= a < |rest| && of[a] == k - 1 && rest[a].index == j;
        assert of'[|first| + a] == k && rows[|first| + a] == rest[a];
      }
    }
    assert RowsAt(rows, of', [t] + own, path, [id] + tickets);
  }

  lemma {:induction false} RowsAre(c: Context, tree: Tree, source: PlanSource, tasks: seq<TaskSlice>, tickets: seq<string>) returns (own: seq<TaskSlice>)
    requires (forall t :: t in tasks ==> Indexed(t)) && ProposedRows(c, tree, source, tasks, tickets).Some?
    ensures |own| == |tickets| && forall k :: 0 <= k < |tickets| ==> Resolved(c, tree, source, tasks, tickets[k], own[k])
    ensures exists of :: RowsAt(ProposedRows(c, tree, source, tasks, tickets).value, of, own, source.planPath, tickets)
  {
    hide RowsAt, Resolved, Resolves;
    if tickets == [] {
      own := [];
      NoRows(source.planPath);
    } else {
      var id, rest := tickets[0], tickets[1..];
      var later := RowsAre(c, tree, source, tasks, rest);
      ResolvesIff(c, tree, source, tasks, id);
      var n, t := FirstTask(c, tree, source, tasks, id);
      own := [t] + later;
      var of :| RowsAt(ProposedRows(c, tree, source, tasks, rest).value, of, later, source.planPath, rest);
      RowsFirst(RowsOf(source.planPath, id, n, t.tokens), ProposedRows(c, tree, source, tasks, rest).value, of, later, source.planPath, id, t, rest);
      assert [id] + rest == tickets;
    }
  }

  lemma NoRows(path: string)
    ensures RowsAt([], [], [], path, [])
  {}

  lemma FirstTask(c: Context, tree: Tree, source: PlanSource, tasks: seq<TaskSlice>, id: string) returns (n: nat, t: TaskSlice)
    requires (forall t :: t in tasks ==> Indexed(t)) && Resolves(c, tree, source, tasks, id)
    ensures TicketNumber(id) == Some(n) && Numbered(tasks, n) == [t]
    ensures var rows := RowsOf(source.planPath, id, n, t.tokens);
      |rows| == |t.tokens| && forall j :: 0 <= j < |rows| ==> RowOfTask(rows[j], source.planPath, id, t) && rows[j].index == j
  {
    n := TicketNumber(id).value;
    t := Numbered(tasks, n)[0];
    NumberedIff(tasks, n);
    assert t in Numbered(tasks, n);
    RowsOfAre(source.planPath, id, n, t.tokens, 0);
  }

  // ----- when it throws

  lemma {:induction false} RowsIff(c: Context, tree: Tree, source: PlanSource, tasks: seq<TaskSlice>, tickets: seq<string>)
    ensures ProposedRows(c, tree, source, tasks, tickets).Some? <==> forall id :: id in tickets ==> Resolves(c, tree, source, tasks, id)
  {
    hide Resolves;
    if tickets != [] {
      RowsIff(c, tree, source, tasks, tickets[1..]);
      assert tickets == [tickets[0]] + tickets[1..];
    }
  }

  /** The first registered plan of this name. */
  ghost predicate FirstNamed(plans: seq<PlanSource>, planLabel: string, source: PlanSource) {
    exists i :: 0 <= i < |plans| && plans[i] == source && source.planLabel == planLabel && forall j :: 0 <= j < i ==> plans[j].planLabel != planLabel
  }

  lemma {:induction false} FindsFirst(plans: seq<PlanSource>, planLabel: string)
    ensures FindSource(plans, planLabel).Some? ==> FirstNamed(plans, planLabel, FindSource(plans, planLabel).value)
    ensures FindSource(plans, planLabel).None? <==> forall s :: s in plans ==> s.planLabel != planLabel
  {
    if plans != [] {
      assert plans == [plans[0]] + plans[1..];
      FindsFirst(plans[1..], planLabel);
      if plans[0].planLabel == planLabel {
        assert plans[0] == FindSource(plans, planLabel).value;
      } else if FindSource(plans[1..], planLabel).Some? {
        var source := FindSource(plans[1..], planLabel).value;
        var i :| 0 <= i < |plans[1..]| && plans[1..][i] == source && forall j :: 0 <= j < i ==> plans[1..][j].planLabel != planLabel;
        forall j | 0 <= j < i + 1 ensures plans[j].planLabel != planLabel { if j > 0 { assert plans[j] == plans[1..][j - 1]; } }
        assert plans[i + 1] == source;
      }
    }
  }

  lemma {:induction false} AllDigits(id: string, i: nat)
    requires i <= |id|
    ensures Digits(id, i) == id[i..] <==> forall k :: i <= k < |id| ==> '0' <= id[k] <= '9'
    decreases |id| - i
  {
    if i < |id| {
      AllDigits(id, i + 1);
      assert id[i..] == [id[i]] + id[i + 1..];
      if '0' <= id[i] <= '9' {
        assert Digits(id, i) == [id[i]] + Digits(id, i + 1);
        assert ([id[i]] + Digits(id, i + 1))[1..] == Digits(id, i + 1);
      }
    }
  }

  /** An id carries a number iff it is a first letter and digits, one at least; the number is what these say in decimal. */
  lemma TicketNumberIs(id: string)
    ensures TicketNumber(id).Some? <==> |id| >= 2 && forall k :: 1 <= k < |id| ==> '0' <= id[k] <= '9'
    ensures TicketNumber(id).Some? && |id| == 2 ==> TicketNumber(id).value == (id[1] - '0') as nat
    ensures TicketNumber(id).Some? && |id| > 2 ==>
      (var n := |id| - 1; TicketNumber(id[..n]).Some? && TicketNumber(id).value == 10 * TicketNumber(id[..n]).value + (id[n] - '0') as nat)
  {
    hide Digits;
    AllDigits(id, if id == "" then 0 else 1);
    var n := |id| - 1;
    if TicketNumber(id).Some? {
      assert id[1..][..n - 1] == id[..n][1..] && id[1..][n - 1] == id[n];
      assert NumberOf("") == 0;
      if n > 1 { AllDigits(id[..n], 1); }
    }
  }

  // ----- the whole proposal

  /** Everything a proposal says, against the plan's tasks as the tree holds them. */
  ghost predicate Proposes(c: Context, tree: Tree, source: PlanSource, tasks: seq<TaskSlice>, planLabel: string, tickets: seq<string>,
                           built: Option<set<string>>, p: Proposal) {
    && p.plan == planLabel && Picks(tickets, p.tickets, Built(built)) && Picks(tickets, p.notClosable, Unbuilt(built))
    && exists own, of :: RowsAt(p.rows, of, own, source.planPath, p.tickets)
         && forall k :: 0 <= k < |own| ==> Resolved(c, tree, source, tasks, p.tickets[k], own[k])
  }

  /**
   A proposal holds exactly the selected tickets that were built, in the order selected, and leaves exactly the others as
   not closable. Each of its tickets names the only task of its number, and its rows are the tokens of these tasks, one
   row each, ticket by ticket and in plan order, with the value each token holds.
  */
  lemma ProposalIs(c: Context, tree: Tree, planLabel: string, tickets: seq<string>, built: Option<set<string>>, source: PlanSource, html: string)
    requires FindSource(c.registry.plans, planLabel) == Some(source) && TreeText(tree, source.planPath) == Some(html)
    requires Propose(c, tree, planLabel, tickets, built).Some?
    ensures Proposes(c, tree, source, AllTasks(Scan(c.g, html)), planLabel, tickets, built, Propose(c, tree, planLabel, tickets, built).value)
    ensures var p := Propose(c, tree, planLabel, tickets, built).value;
      && (forall id :: id in p.tickets <==> id in tickets && (built.None? || id in built.value))
      && (forall id :: id in p.notClosable <==> id in tickets && built.Some? && id !in built.value)
  {
    hide RowsAt, Resolved, PickedAt, Scan, AllTasks, ProposedRows, Kept;
    ScanIndexed(c.g, html);
    KeptPicks(tickets, built);
    var own := RowsAre(c, tree, source, AllTasks(Scan(c.g, html)), Kept(tickets, built, true));
    PicksHas(tickets, Kept(tickets, built, true), Built(built));
    PicksHas(tickets, Kept(tickets, built, false), Unbuilt(built));
  }

  /** Every selected ticket that was built resolves. */
  ghost predicate AllResolve(c: Context, tree: Tree, source: PlanSource, tasks: seq<TaskSlice>, tickets: seq<string>, built: Option<set<string>>) {
    forall id :: id in tickets && (built.None? || id in built.value) ==> exists t :: Resolved(c, tree, source, tasks, id, t)
  }

  lemma ResolvesAll(c: Context, tree: Tree, source: PlanSource, tasks: seq<TaskSlice>, tickets: seq<string>, built: Option<set<string>>)
    ensures ProposedRows(c, tree, source, tasks, Kept(tickets, built, true)).Some? <==> AllResolve(c, tree, source, tasks, tickets, built)
  {
    hide Resolved, Resolves, ProposedRows, Kept, Picks;
    KeptPicks(tickets, built);
    PicksHas(tickets, Kept(tickets, built, true), Built(built));
    RowsIff(c, tree, source, tasks, Kept(tickets, built, true));
    forall id ensures Resolves(c, tree, source, tasks, id) <==> exists t :: Resolved(c, tree, source, tasks, id, t) {
      ResolvesIff(c, tree, source, tasks, id);
    }
    forall id ensures id in Kept(tickets, built, true) <==> id in tickets && (built.None? || id in built.value) {}
  }

  /** It throws exactly when no plan of that name is registered, the first one's text does not read, or a built ticket does not resolve. */
  lemma ProposesIff(c: Context, tree: Tree, planLabel: string, tickets: seq<string>, built: Option<set<string>>, source: PlanSource)
    ensures (forall s :: s in c.registry.plans ==> s.planLabel != planLabel) ==> Propose(c, tree, planLabel, tickets, built).None?
    ensures FirstNamed(c.registry.plans, planLabel, source) ==>
      (Propose(c, tree, planLabel, tickets, built).Some? <==>
        source.planPath in tree && tree[source.planPath].Utf8?
        && AllResolve(c, tree, source, AllTasks(Scan(c.g, tree[source.planPath].text)), tickets, built))
  {
    hide AllResolve, Scan, AllTasks, ProposedRows, Kept;
    FindsFirst(c.registry.plans, planLabel);
    if FirstNamed(c.registry.plans, planLabel, source) {
      OneFirst(c.registry.plans, planLabel, source, FindSource(c.registry.plans, planLabel));
      if TreeText(tree, source.planPath).Some? {
        ResolvesAll(c, tree, source, AllTasks(Scan(c.g, tree[source.planPath].text)), tickets, built);
      }
    }
  }

  lemma OneFirst(plans: seq<PlanSource>, planLabel: string, source: PlanSource, found: Option<PlanSource>)
    requires FirstNamed(plans, planLabel, source) && (found.Some? ==> FirstNamed(plans, planLabel, found.value))
    requires found.None? ==> forall s :: s in plans ==> s.planLabel != planLabel
    ensures found == Some(source)
  {
    var i :| 0 <= i < |plans| && plans[i] == source && source.planLabel == planLabel && forall j :: 0 <= j < i ==> plans[j].planLabel != planLabel;
    assert plans[i] in plans;
    var k :| 0 <= k < |plans| && plans[k] == found.value && found.value.planLabel == planLabel && forall j :: 0 <= j < k ==> plans[j].planLabel != planLabel;
    assert i == k;
  }
}
