/** Closing tickets never changes what a ticket asks for: its checklist rows read the same before and after. */
module AskedSame {
  import opened Text
  import opened PlanScan
  import opened Holes
  import opened Rescan
  import opened ScanOrder
  import opened Rewrite
  import opened Splice
  import opened AskedFor
  import opened TaskRanges
  import opened AskedKept

  /** A task of the base text whose rows own every value inside its stretch. */
  ghost predicate OwnsRows(g: Grammar, a: seq<Cell>, t: string, b: string, task: TaskSlice) {
    && Sound(g) && Written(a, t, b) && Fits(a) && Still(a) && TaskWithin(task, |a|) && TaskInside(g, b, task)
    && HolesOf(a, task.tokens) && task.start <= task.end && Edge(a, task.start) && Edge(a, task.end)
    && forall j :: task.start <= j < task.end && j < |a| && a[j].value != "" ==> exists k :: k in task.tokens && k.valueStart == j
  }

  function RowFrom(b: string, task: TaskSlice, k: Token): nat
    requires task.start <= k.start && task.start <= k.end
  {
    task.start + RowStart(Slice(b, task.start, task.end), k.start - task.start, k.end - task.start)
  }

  function RowTo(b: string, task: TaskSlice, k: Token): nat
    requires task.start <= k.start && task.start <= k.end
  {
    task.start + RowEnd(Slice(b, task.start, task.end), k.start - task.start, k.end - task.start)
  }

  /** The row as the base text has it: no value anywhere. */
  function BaseRow(b: string, task: TaskSlice, k: Token): string
    requires task.start <= k.start && task.start <= k.end
  {
    Slice(b, RowFrom(b, task, k), RowTo(b, task, k))
  }

  lemma TokenEdges(g: Grammar, a: seq<Cell>, t: string, b: string, task: TaskSlice, k: Token)
    requires OwnsRows(g, a, t, b, task) && k in task.tokens
    ensures task.start <= k.start < k.end <= task.end && b[k.start] == '<'
    ensures Edge(a, k.start) && Edge(a, k.end) && Char(a, k.end) == Char(a, k.valueEnd) + |g.close|
  {
    hide Still, HolesOf;
    assert RowInside(g, b, task.start, task.end, k);
    InStepLast(a, t, b, k.valueEnd, g.close);
    StartsAtIsPrefix(b, k.valueEnd, g.close);
    assert b[k.end - 1] == g.close[|g.close| - 1];
    assert ReadsAt(a, t, b, k.end - 1) && ReadsAt(a, t, b, k.start);
    EdgeAfter(a, k.end);
    EdgeAt(a, k.start);
  }

  /** A place in the task's slice, seen from the whole text. */
  lemma PlaceOut(a: seq<Cell>, from: nat, to: nat, i: nat)
    requires Edge(a, from) && Edge(a, to) && from <= to && i <= to - from
    ensures Char(a[from..to], i) + Char(a, from) == Char(a, from + i)
    ensures Edge(a[from..to], i) <==> Edge(a, from + i) || i == to - from
  {
    SubAt(a, from, to, i);
  }

  ghost predicate RowPlaced(a: seq<Cell>, ts: string, b: string, task: TaskSlice, k: Token) {
    && task.start <= k.start && task.start <= k.end && k.start <= |a| && k.end <= |a|
    && Char(a, task.start) <= Char(a, k.start) && Char(a, task.start) <= Char(a, k.end)
    && var from, to := RowFrom(b, task, k), RowTo(b, task, k);
    && task.start <= from <= to <= task.end && Edge(a, from) && Edge(a, to)
    && var i, e := Char(a, k.start) - Char(a, task.start), Char(a, k.end) - Char(a, task.start);
    && Char(a, task.start) + RowStart(ts, i, e) == Char(a, from)
    && Char(a, task.start) + RowEnd(ts, i, e) == Char(a, to)
  }

  lemma SlicedChar(b: string, from: nat, to: nat, i: nat)
    requires from <= i < to <= |b|
    ensures i - from < |Slice(b, from, to)| && Slice(b, from, to)[i - from] == b[i]
  {}

  lemma SliceCells(a: seq<Cell>, t: string, b: string, from: nat, to: nat, i: nat, e: nat)
    requires Written(a, t, b) && Fits(a) && Edge(a, from) && Edge(a, to) && from <= i < e <= to <= |a| && Quiet(a[from..to])
    requires |b| == |a| && b[i] == '<' && Edge(a, e)
    ensures BoundsMove(a[from..to], Slice(t, Char(a, from), Char(a, to)), Slice(b, from, to), i - from, e - from)
  {
    hide RowStart, RowEnd, InItem, Written, Fits, Quiet, BoundsMove, Slice;
    SubCells(a, t, b, from, to);
    SlicedChar(b, from, to, i);
    PlaceOut(a, from, to, e - from);
    RowBoundsMove(a[from..to], Slice(t, Char(a, from), Char(a, to)), Slice(b, from, to), i - from, e - from);
  }

  /** Every value of a task stands right after the end of a tag that opened inside the task. */
  lemma TaskIsQuiet(g: Grammar, a: seq<Cell>, t: string, b: string, task: TaskSlice)
    requires OwnsRows(g, a, t, b, task)
    ensures Quiet(a[task.start..task.end])
  {
    hide Still, HolesOf, Quiet;
    forall h | task.start <= h < task.end && a[h].value != "" ensures task.start + 2 <= h && a[h - 2].c == '>' {
      var k :| k in task.tokens && k.valueStart == h;
      assert RowInside(g, b, task.start, task.end, k);
      assert ReadsAt(a, t, b, h - 2);
    }
    QuietSub(a, task.start, task.end);
  }

  lemma BoundsInSlice(g: Grammar, a: seq<Cell>, t: string, b: string, task: TaskSlice, k: Token)
    requires OwnsRows(g, a, t, b, task) && k in task.tokens
    ensures task.start <= k.start < k.end <= task.end
    ensures BoundsMove(a[task.start..task.end], Slice(t, Char(a, task.start), Char(a, task.end)), Slice(b, task.start, task.end),
                       k.start - task.start, k.end - task.start)
  {
    hide BoundsMove, Quiet, Still, Fits, HolesOf, FitsAt, Slice;
    TokenEdges(g, a, t, b, task, k);
    TaskIsQuiet(g, a, t, b, task);
    SliceCells(a, t, b, task.start, task.end, k.start, k.end);
  }

  lemma RowFound(g: Grammar, a: seq<Cell>, t: string, b: string, task: TaskSlice, k: Token)
    requires OwnsRows(g, a, t, b, task) && k in task.tokens
    ensures RowPlaced(a, Slice(t, Char(a, task.start), Char(a, task.end)), b, task, k)
  {
    BoundsInSlice(g, a, t, b, task, k);
    BoundsOut(a, Slice(t, Char(a, task.start), Char(a, task.end)), b, task, k);
  }

  lemma BoundsOut(a: seq<Cell>, ts: string, b: string, task: TaskSlice, k: Token)
    requires task.start <= k.start < k.end <= task.end && Edge(a, task.start) && Edge(a, task.end)
    requires BoundsMove(a[task.start..task.end], ts, Slice(b, task.start, task.end), k.start - task.start, k.end - task.start)
    ensures RowPlaced(a, ts, b, task, k)
  {
    hide RowStart, RowEnd, InItem;
    var bs, i, e := Slice(b, task.start, task.end), k.start - task.start, k.end - task.start;
    PlaceOut(a, task.start, task.end, i);
    PlaceOut(a, task.start, task.end, e);
    PlaceOut(a, task.start, task.end, RowStart(bs, i, e));
    PlaceOut(a, task.start, task.end, RowEnd(bs, i, e));
  }

  lemma OwnsBetween(g: Grammar, a: seq<Cell>, t: string, b: string, task: TaskSlice, from: nat, to: nat)
    requires OwnsRows(g, a, t, b, task) && task.start <= from <= to <= task.end
    ensures Covered(a, task.tokens, from, to)
  {}

  lemma RowInOrder(g: Grammar, a: seq<Cell>, t: string, b: string, task: TaskSlice, from: nat, to: nat)
    requires OwnsRows(g, a, t, b, task) && task.start <= from <= to <= task.end
    ensures Char(a, task.start) <= Char(a, from) <= Char(a, to) <= Char(a, task.end) <= |t|
  {
    Ordered(a, task.start, from);
    Ordered(a, from, to);
    Ordered(a, to, task.end);
    Ordered(a, task.end, |a|);
  }

  lemma MaskedIsBase(g: Grammar, a: seq<Cell>, t: string, b: string, task: TaskSlice, from: nat, to: nat)
    requires OwnsRows(g, a, t, b, task) && task.start <= from <= to <= task.end && Edge(a, from) && Edge(a, to)
    ensures LiftedMask(g, a, t, task.tokens, from, from, to) == Slice(b, from, to)
  {
    OwnsBetween(g, a, t, b, task, from, to);
    RowLessValues(g, a, t, b, from, to, task.tokens, from);
  }

  /** A checklist row, its values taken out, is the base row. */
  lemma RowIsBase(g: Grammar, a: seq<Cell>, t: string, b: string, task: TaskSlice, k: Token, marker: string)
    requires OwnsRows(g, a, t, b, task) && k in task.tokens && TaskWithin(task, |a|)
    ensures var up, here := LiftTask(g, a, t, task, marker), LiftToken(g, a, t, k);
      && task.start <= k.start && task.start <= k.end && up.start <= here.start && up.start <= here.end
      && ChecklistRow(t, up, here) == BaseRow(b, task, k)
  {
    hide OwnsRows, RowStart, RowEnd, ChecklistRow, Masked, Slice, Char;
    TokenEdges(g, a, t, b, task, k);
    RowFound(g, a, t, b, task, k);
    var from, to := RowFrom(b, task, k), RowTo(b, task, k);
    MaskedIsBase(g, a, t, b, task, from, to);
    RowInOrder(g, a, t, b, task, from, to);
    RowReads(t, LiftTask(g, a, t, task, marker), LiftToken(g, a, t, k), Char(a, from), Char(a, to));
  }

  lemma RowReads(t: string, up: TaskSlice, here: Token, from: nat, to: nat)
    requires up.start <= from <= to <= up.end <= |t| && up.start <= here.start && up.start <= here.end
    requires var ts := Slice(t, up.start, up.end);
      && up.start + RowStart(ts, here.start - up.start, here.end - up.start) == from
      && up.start + RowEnd(ts, here.start - up.start, here.end - up.start) == to
    ensures ChecklistRow(t, up, here) == Masked(t, up.tokens, from, from, to)
  {
    hide RowStart, RowEnd, InItem;
    SlicedTwice(t, up.start, up.end, from, to);
    RowIsMasked(t, up.tokens, from, from, to);
  }

  lemma RowsAreBase(g: Grammar, a: seq<Cell>, t: string, b: string, task: TaskSlice, marker: string)
    requires OwnsRows(g, a, t, b, task)
    ensures TokensInside(task) && TokensInside(LiftTask(g, a, t, task, marker))
    ensures var rows := ChecklistRows(t, LiftTask(g, a, t, task, marker));
      |rows| == |task.tokens| && forall i :: 0 <= i < |rows| ==> rows[i] == BaseRow(b, task, task.tokens[i])
  {
    var up := LiftTask(g, a, t, task, marker);
    forall i | 0 <= i < |task.tokens|
      ensures task.start <= task.tokens[i].start && task.start <= task.tokens[i].end
      ensures up.start <= up.tokens[i].start && up.start <= up.tokens[i].end
      ensures ChecklistRow(t, up, up.tokens[i]) == BaseRow(b, task, task.tokens[i])
    {
      RowIsBase(g, a, t, b, task, task.tokens[i], marker);
    }
  }

  // ----- values written into a plan stand only at its tokens

  ghost predicate ValueOf(gaps: seq<string>, values: seq<string>, v: string, i: nat, value: string) {
    value == "" || (i == 0 && value == v) || exists k :: 0 <= k < |values| && k < |gaps| && i == HoleAt(gaps, k) && value == values[k]
  }

  lemma {:induction false} CellValue(gaps: seq<string>, values: seq<string>, v: string, i: nat)
    requires |gaps| == |values| + 1 && i < |Cells(gaps, values, v)|
    ensures ValueOf(gaps, values, v, i, Cells(gaps, values, v)[i].value)
    decreases |values|
  {
    var x, all := GapCells(gaps[0], v), Cells(gaps, values, v);
    if values != [] && i >= |x| {
      var rest := Cells(gaps[1..], values[1..], values[0]);
      assert all == x + rest && all[i] == rest[i - |x|];
      CellValue(gaps[1..], values[1..], values[0], i - |x|);
      ValueAfter(gaps, values, v, i, all[i].value);
    }
  }

  lemma ValueAfter(gaps: seq<string>, values: seq<string>, v: string, i: nat, value: string)
    requires |gaps| == |values| + 1 && values != [] && |gaps[0]| <= i
    requires ValueOf(gaps[1..], values[1..], values[0], i - |gaps[0]|, value)
    ensures ValueOf(gaps, values, v, i, value)
  {
    if value != "" {
      if i == |gaps[0]| && value == values[0] {
        assert HoleAt(gaps, 0) == i;
      } else {
        var k :| 0 <= k < |values[1..]| && i - |gaps[0]| == HoleAt(gaps[1..], k) && value == values[1..][k];
        assert HoleAt(gaps, k + 1) == i && values[k + 1] == value;
      }
    }
  }

  predicate Calm(v: string) {
    Plain(v) && '\n' !in v
  }

  ghost predicate AllCalm(values: seq<string>) {
    forall k :: 0 <= k < |values| ==> Calm(values[k])
  }

  lemma CalmIsStill(gaps: seq<string>, values: seq<string>)
    requires |gaps| == |values| + 1 && AllCalm(values)
    ensures Still(Cells(gaps, values, ""))
  {
    var a := Cells(gaps, values, "");
    forall i | 0 <= i < |a| ensures FreeAt(a, '\n', i) && FreeAt(a, '<', i) && FreeAt(a, ']', i) {
      CellValue(gaps, values, "", i);
    }
  }

  // ----- base tasks own their rows

  lemma {:induction false} HeadValues(g: Grammar, html: string, heads: seq<Hit>)
    ensures forall k :: k in Milestones(Sections(g, html, heads)) ==> k.value == Slice(html, k.valueStart, k.valueEnd)
    decreases |heads|
  {
    if heads != [] {
      HeadValues(g, html, heads[1..]);
      var all := [SectionOf(g, html, heads)] + Sections(g, html, heads[1..]);
      assert all[1..] == Sections(g, html, heads[1..]);
    }
  }

  lemma BaseHeadsAreEmpty(g: Grammar, b: string, gaps: seq<string>)
    requires Aligned(Tokens(Scan(g, b)), gaps)
    ensures PlainTokens(Milestones(Scan(g, b)))
  {
    var tokens := Tokens(Scan(g, b));
    HeadValues(g, b, MatchAll(g, Head, b, 0));
    HeadsAmongTokens(Scan(g, b));
    forall k | k in Milestones(Scan(g, b)) ensures Plain(k.value) {
      assert k in tokens;
      var i :| 0 <= i < |tokens| && tokens[i] == k;
      assert AlignedAt(tokens, gaps, i);
    }
  }

  lemma {:induction false} TaskAmong(sections: seq<Section>, task: TaskSlice)
    requires task in AllTasks(sections)
    ensures forall k :: k in task.tokens ==> k in Tokens(sections)
  {
    if task in sections[0].tasks { TaskTokensAmong(sections[0].tasks, task); } else { TaskAmong(sections[1..], task); }
  }

  lemma {:induction false} TaskTokensAmong(tasks: seq<TaskSlice>, task: TaskSlice)
    requires task in tasks
    ensures forall k :: k in task.tokens ==> k in TaskTokens(tasks)
  {
    if task != tasks[0] { TaskTokensAmong(tasks[1..], task); }
  }

  lemma {:induction false} TasksWithin(sections: seq<Section>, n: nat)
    requires forall s :: s in sections ==> SectionWithin(s, n)
    ensures forall k :: k in AllTasks(sections) ==> TaskWithin(k, n)
  {
    if sections != [] {
      assert sections[0] in sections;
      TasksWithin(sections[1..], n);
    }
  }

  /** What scanning text written from these segments and values looks like from the base text. */
  ghost predicate WovenPlan(g: Grammar, gaps: seq<string>, values: seq<string>, base: seq<Section>) {
    && Sound(g) && Separate(g) && |gaps| == |values| + 1 && Joints(gaps) && AllCalm(values)
    && base == Scan(g, Join(gaps)) && Aligned(Tokens(base), gaps)
    && |Cells(gaps, values, "")| == |Join(gaps)|
    && (forall s :: s in base ==> SectionWithin(s, |Join(gaps)|))
  }

  lemma HoleOf(g: Grammar, gaps: seq<string>, values: seq<string>, base: seq<Section>, k: Token)
    requires WovenPlan(g, gaps, values, base) && k in Tokens(base)
    ensures k.valueStart == k.valueEnd < |Cells(gaps, values, "")|
  {
    var tokens := Tokens(base);
    var i :| 0 <= i < |tokens| && tokens[i] == k;
    assert AlignedAt(tokens, gaps, i);
    HoleStands(gaps, values, "", i);
  }

  lemma TaskHoles(g: Grammar, gaps: seq<string>, values: seq<string>, base: seq<Section>, task: TaskSlice)
    requires WovenPlan(g, gaps, values, base) && task in AllTasks(base) && TaskInside(g, Join(gaps), task)
    requires TaskWithin(task, |Cells(gaps, values, "")|)
    ensures HolesOf(Cells(gaps, values, ""), task.tokens)
  {
    var tokens := task.tokens;
    TaskAmong(base, task);
    forall k | k in tokens ensures k.valueStart == k.valueEnd < |Cells(gaps, values, "")| { HoleOf(g, gaps, values, base, k); }
    TokensInOrder(tokens, task.start, task.end);
  }

  lemma ValuesAreOwned(g: Grammar, gaps: seq<string>, values: seq<string>, base: seq<Section>, task: TaskSlice, j: nat)
    requires WovenPlan(g, gaps, values, base) && SectionsRanged(g, Join(gaps), base, 0, |Join(gaps)|)
    requires task in AllTasks(base) && task.start <= j < task.end && j < |Cells(gaps, values, "")|
    requires Cells(gaps, values, "")[j].value != ""
    ensures exists k :: k in task.tokens && k.valueStart == j
  {
    var tokens := Tokens(base);
    CellValue(gaps, values, "", j);
    var k :| 0 <= k < |values| && j == HoleAt(gaps, k);
    assert AlignedAt(tokens, gaps, k);
    assert tokens[k] in tokens;
    OwnRowsOfPlan(g, Join(gaps), base, 0, |Join(gaps)|, task, tokens[k]);
  }

  lemma BaseOwnsRows(g: Grammar, gaps: seq<string>, values: seq<string>, base: seq<Section>, task: TaskSlice)
    requires WovenPlan(g, gaps, values, base) && task in AllTasks(base)
    ensures OwnsRows(g, Cells(gaps, values, ""), Weave(gaps, values), Join(gaps), task)
  {
    var a, b := Cells(gaps, values, ""), Join(gaps);
    BaseHeadsAreEmpty(g, b, gaps);
    ScanIsRanged(g, b);
    SectionsAbove(g, b, base, 0, |b|);
    TasksWithin(base, |a|);
    WovenCells(gaps, values);
    TaskHoles(g, gaps, values, base, task);
    TaskEnds(a, Weave(gaps, values), b, g, task);
    forall j | task.start <= j < task.end && j < |a| && a[j].value != "" ensures exists k :: k in task.tokens && k.valueStart == j {
      ValuesAreOwned(g, gaps, values, base, task, j);
    }
  }

  lemma WovenCells(gaps: seq<string>, values: seq<string>)
    requires |gaps| == |values| + 1 && Joints(gaps) && AllCalm(values)
    ensures var a := Cells(gaps, values, ""); Written(a, Weave(gaps, values), Join(gaps)) && Fits(a) && Still(a)
  {
    CellsText(gaps, values, "");
    CellsBase(gaps, values, "");
    CellsFit(gaps, values);
    CalmIsStill(gaps, values);
    WrittenOut(Cells(gaps, values, ""));
    assert "" + Weave(gaps, values) == Weave(gaps, values);
  }

  lemma TaskEnds(a: seq<Cell>, t: string, b: string, g: Grammar, task: TaskSlice)
    requires Written(a, t, b) && Fits(a) && TaskInside(g, b, task)
    ensures Edge(a, task.start) && Edge(a, task.end)
  {
    if task.start < |a| { assert ReadsAt(a, t, b, task.start); EdgeAt(a, task.start); }
    if task.end < |a| { assert ReadsAt(a, t, b, task.end); EdgeAt(a, task.end); }
  }

  // ----- every task asks for what it asked for

  ghost predicate AsksBase(html: string, task: TaskSlice, b: string, base: TaskSlice) {
    && TokensInside(base) && TokensInside(task) && task.number == base.number
    && var rows := ChecklistRows(html, task);
    && |rows| == |base.tokens| && forall i :: 0 <= i < |rows| ==> rows[i] == BaseRow(b, base, base.tokens[i])
  }

  lemma TaskLifted(g: Grammar, a: seq<Cell>, t: string, tasks: seq<TaskSlice>, marker: string)
    requires tasks != [] && forall k :: k in tasks ==> TaskWithin(k, |a|)
    ensures TaskWithin(tasks[0], |a|) && LiftTasks(g, a, t, tasks, marker) == [LiftTask(g, a, t, tasks[0], marker)] + LiftTasks(g, a, t, tasks[1..], marker)
  {
    assert tasks[0] in tasks;
    hide LiftTask;
  }

  lemma TaskAsks(g: Grammar, a: seq<Cell>, t: string, b: string, task: TaskSlice, marker: string)
    requires TaskWithin(task, |a|) && OwnsRows(g, a, t, b, task)
    ensures AsksBase(t, LiftTask(g, a, t, task, marker), b, task)
  {
    RowsAreBase(g, a, t, b, task, marker);
    hide OwnsRows, ChecklistRows, BaseRow, TokensInside;
  }

  lemma {:induction false} TasksAsk(g: Grammar, a: seq<Cell>, t: string, b: string, tasks: seq<TaskSlice>, marker: string)
    requires forall k :: k in tasks ==> TaskWithin(k, |a|) && OwnsRows(g, a, t, b, k)
    ensures forall i :: 0 <= i < |tasks| ==> AsksBase(t, LiftTasks(g, a, t, tasks, marker)[i], b, tasks[i])
  {
    hide *;
    if tasks != [] {
      assert tasks[0] in tasks;
      TaskAsks(g, a, t, b, tasks[0], marker);
      forall k | k in tasks[1..] ensures k in tasks {}
      TasksAsk(g, a, t, b, tasks[1..], marker);
      TaskLifted(g, a, t, tasks, marker);
      var lifted := LiftTasks(g, a, t, tasks, marker);
      forall i | 0 <= i < |tasks| ensures AsksBase(t, lifted[i], b, tasks[i]) {
        if i > 0 { assert tasks[i] == tasks[1..][i - 1] && lifted[i] == LiftTasks(g, a, t, tasks[1..], marker)[i - 1]; }
      }
    }
  }

  lemma {:induction false} PlanAsks(g: Grammar, a: seq<Cell>, t: string, b: string, sections: seq<Section>)
    requires forall s :: s in sections ==> SectionWithin(s, |a|)
    requires forall k :: k in AllTasks(sections) ==> OwnsRows(g, a, t, b, k)
    ensures |AllTasks(LiftSections(g, a, t, sections))| == |AllTasks(sections)|
    ensures forall i :: 0 <= i < |AllTasks(sections)| ==>
      AsksBase(t, AllTasks(LiftSections(g, a, t, sections))[i], b, AllTasks(sections)[i])
  {
    if sections != [] {
      var s, rest := sections[0], sections[1..];
      assert s in sections && s.head in [s.head];
      forall k | k in AllTasks(rest) ensures k in AllTasks(sections) {}
      PlanAsks(g, a, t, b, rest);
      var marker := LiftToken(g, a, t, s.head).value;
      forall k | k in s.tasks ensures TaskWithin(k, |a|) && OwnsRows(g, a, t, b, k) { assert k in AllTasks(sections); }
      TasksAsk(g, a, t, b, s.tasks, marker);
      var x, y := LiftTasks(g, a, t, s.tasks, marker), AllTasks(LiftSections(g, a, t, rest));
      assert AllTasks(LiftSections(g, a, t, sections)) == x + y;
      assert AllTasks(sections) == s.tasks + AllTasks(rest);
    }
  }

  lemma WovenAsks(g: Grammar, gaps: seq<string>, values: seq<string>, base: seq<Section>)
    requires WovenPlan(g, gaps, values, base)
    ensures var tasks := AllTasks(Scan(g, Weave(gaps, values)));
      && |tasks| == |AllTasks(base)|
      && forall i :: 0 <= i < |tasks| ==> AsksBase(Weave(gaps, values), tasks[i], Join(gaps), AllTasks(base)[i])
  {
    forall k | k in AllTasks(base) ensures OwnsRows(g, Cells(gaps, values, ""), Weave(gaps, values), Join(gaps), k) {
      BaseOwnsRows(g, gaps, values, base, k);
    }
    ScanWoven(g, gaps, values);
    PlanAsks(g, Cells(gaps, values, ""), Weave(gaps, values), Join(gaps), base);
  }

  ghost predicate CalmPlan(g: Grammar, html: string) {
    Readable(g, html) && forall k :: k in Tokens(Scan(g, html)) ==> Calm(k.value)
  }

  ghost predicate SameAsks(x: string, xs: seq<TaskSlice>, y: string, ys: seq<TaskSlice>) {
    && |xs| == |ys|
    && forall i :: 0 <= i < |xs| ==>
         TokensInside(xs[i]) && TokensInside(ys[i]) && xs[i].number == ys[i].number && ChecklistRows(x, xs[i]) == ChecklistRows(y, ys[i])
  }

  lemma PlanIsWoven(g: Grammar, html: string)
    requires CalmPlan(g, html)
    ensures var tokens := Tokens(Scan(g, html)); var gaps, values := Gaps(html, Spans(tokens), 0), Values(Spans(tokens));
      html == Weave(gaps, values) && WovenPlan(g, gaps, values, Scan(g, Join(gaps)))
  {
    var tokens := Tokens(Scan(g, html));
    var gaps, values := Gaps(html, Spans(tokens), 0), Values(Spans(tokens));
    PlanIsLaid(g, html);
    forall k | 0 <= k < |values| ensures Calm(values[k]) { assert tokens[k] in tokens; }
    ScanWoven(g, gaps, values);
    var a, base := Cells(gaps, values, ""), Scan(g, Join(gaps));
    TokensLift(g, a, html, base);
    BaseIsAligned(g, gaps, values, html, Tokens(base));
  }

  lemma OtherValues(g: Grammar, gaps: seq<string>, values: seq<string>, news: seq<string>, base: seq<Section>)
    requires WovenPlan(g, gaps, values, base) && |news| == |values| && AllCalm(news)
    ensures WovenPlan(g, gaps, news, base)
  {
    CellsBase(gaps, values, "");
    CellsBase(gaps, news, "");
  }

  /** Writing any calm status values into a plan leaves every checklist row of every task as it was. */
  lemma AsksUnchanged(g: Grammar, html: string, f: Token -> string)
    requires CalmPlan(g, html) && forall k :: k in Tokens(Scan(g, html)) ==> Calm(f(k))
    ensures SameAsks(html, AllTasks(Scan(g, html)), Restated(g, html, f), AllTasks(Scan(g, Restated(g, html, f))))
  {
    var tokens := Tokens(Scan(g, html));
    var gaps, values, news := Gaps(html, Spans(tokens), 0), Values(Spans(tokens)), Mapped(tokens, f);
    var base := Scan(g, Join(gaps));
    PlanIsWoven(g, html);
    forall k | 0 <= k < |news| ensures Calm(news[k]) { assert tokens[k] in tokens; }
    OtherValues(g, gaps, values, news, base);
    WovenAsks(g, gaps, values, base);
    WovenAsks(g, gaps, news, base);
    SameBase(html, AllTasks(Scan(g, html)), Weave(gaps, news), AllTasks(Scan(g, Weave(gaps, news))), Join(gaps), AllTasks(base));
  }

  lemma SameBase(x: string, xs: seq<TaskSlice>, y: string, ys: seq<TaskSlice>, b: string, base: seq<TaskSlice>)
    requires |xs| == |ys| == |base|
    requires forall i :: 0 <= i < |base| ==> AsksBase(x, xs[i], b, base[i])
    requires forall i :: 0 <= i < |base| ==> AsksBase(y, ys[i], b, base[i])
    ensures SameAsks(x, xs, y, ys)
  {
    forall i | 0 <= i < |xs|
      ensures TokensInside(xs[i]) && TokensInside(ys[i]) && xs[i].number == ys[i].number && ChecklistRows(x, xs[i]) == ChecklistRows(y, ys[i])
    {
      assert AsksBase(x, xs[i], b, base[i]) && AsksBase(y, ys[i], b, base[i]);
    }
  }
}
