/** Writing new values through the scanner's own spans, and scanning the result again. */
module Rewrite {
  import opened Text
  import opened PlanScan
  import opened Holes
  import opened Rescan
  import opened ScanOrder
  import opened Splice

  function Spans(tokens: seq<Token>): (r: seq<Edit>)
    ensures |r| == |tokens| && forall i :: 0 <= i < |r| ==> r[i] == Edit(tokens[i].valueStart, tokens[i].valueEnd, tokens[i].value)
  {
    if tokens == [] then []
    else [Edit(tokens[0].valueStart, tokens[0].valueEnd, tokens[0].value)] + Spans(tokens[1..])
  }

  function Mapped(tokens: seq<Token>, f: Token -> string): (r: seq<string>)
    ensures |r| == |tokens| && forall i :: 0 <= i < |r| ==> r[i] == f(tokens[i])
  {
    seq(|tokens|, i requires 0 <= i < |tokens| => f(tokens[i]))
  }

  /** The text with every status value replaced by what f gives for its token. */
  function Restated(g: Grammar, html: string, f: Token -> string): string {
    var tokens := Tokens(Scan(g, html));
    Weave(Gaps(html, Spans(tokens), 0), Mapped(tokens, f))
  }

  // ----- cells from segments and values

  function GapCells(gap: string, v: string): (a: seq<Cell>)
    ensures |a| == |gap| && forall i :: 0 <= i < |a| ==> a[i] == Cell(if i == 0 then v else "", gap[i])
  {
    seq(|gap|, i requires 0 <= i < |gap| => Cell(if i == 0 then v else "", gap[i]))
  }

  function Cells(gaps: seq<string>, values: seq<string>, v: string): seq<Cell>
    requires |gaps| == |values| + 1
    decreases |values|
  {
    if values == [] then GapCells(gaps[0], v)
    else GapCells(gaps[0], v) + Cells(gaps[1..], values[1..], values[0])
  }

  function Join(gaps: seq<string>): string {
    if gaps == [] then "" else gaps[0] + Join(gaps[1..])
  }

  /** Every value stands between a segment ending in `[` and one starting with `]`. */
  ghost predicate Joints(gaps: seq<string>) {
    forall k {:trigger JointAt(gaps, k)} :: 0 <= k < |gaps| - 1 ==> JointAt(gaps, k)
  }

  ghost predicate JointAt(gaps: seq<string>, k: nat)
    requires k < |gaps| - 1
  {
    gaps[k] != "" && gaps[k][|gaps[k]| - 1] == '[' && gaps[k + 1] != "" && gaps[k + 1][0] == ']'
  }

  lemma JointsRest(gaps: seq<string>)
    requires |gaps| > 1 && Joints(gaps)
    ensures Joints(gaps[1..]) && JointAt(gaps, 0)
  {
    forall k | 0 <= k < |gaps[1..]| - 1 ensures JointAt(gaps[1..], k) {
      assert JointAt(gaps, k + 1);
    }
  }

  lemma {:induction false} AtAppend(x: seq<Cell>, y: seq<Cell>, n: nat)
    requires n <= |y|
    ensures At(x + y, |x| + n) == At(x, |x|) + At(y, n)
    decreases n
  {
    if n > 0 {
      AtAppend(x, y, n - 1);
      assert (x + y)[|x| + n - 1] == y[n - 1];
    } else {
      AtPrefix(x, y, |x|);
    }
  }

  lemma {:induction false} FlatAppend(x: seq<Cell>, y: seq<Cell>, n: nat)
    requires n <= |y|
    ensures Flat(x + y, |x| + n) == Flat(x, |x|) + Flat(y, n)
    decreases n
  {
    if n > 0 {
      FlatAppend(x, y, n - 1);
      var last := y[n - 1];
      assert (x + y)[|x| + n - 1] == last;
      AppendThree(Flat(x, |x|), Flat(y, n - 1), last.value, [last.c]);
    } else {
      AtPrefix(x, y, |x|);
    }
  }

  lemma AppendThree(a: string, b: string, c: string, d: string)
    ensures (a + b) + c + d == a + (b + c + d)
  {}

  lemma {:induction false} AtPrefix(x: seq<Cell>, y: seq<Cell>, n: nat)
    requires n <= |x|
    ensures At(x + y, n) == At(x, n) && Flat(x + y, n) == Flat(x, n)
  {
    if n > 0 {
      AtPrefix(x, y, n - 1);
      assert (x + y)[n - 1] == x[n - 1];
    }
  }

  lemma {:induction false} GapFlat(gap: string, v: string, n: nat)
    requires n <= |gap|
    ensures Flat(GapCells(gap, v), n) == if n == 0 then "" else v + gap[..n]
  {
    if n > 0 {
      GapFlat(gap, v, n - 1);
      assert gap[..n] == gap[..n - 1] + [gap[n - 1]];
    }
  }

  lemma GapText(gap: string, v: string)
    requires gap == "" ==> v == ""
    ensures TextOf(GapCells(gap, v)) == v + gap
  {
    GapFlat(gap, v, |gap|);
    assert gap[..|gap|] == gap;
  }

  lemma TextAppend(x: seq<Cell>, y: seq<Cell>)
    ensures TextOf(x + y) == TextOf(x) + TextOf(y)
  {
    FlatAppend(x, y, |y|);
  }

  lemma {:induction false} CellsText(gaps: seq<string>, values: seq<string>, v: string)
    requires |gaps| == |values| + 1 && Joints(gaps) && (gaps[0] == "" ==> v == "")
    ensures TextOf(Cells(gaps, values, v)) == v + Weave(gaps, values)
    decreases |values|
  {
    GapText(gaps[0], v);
    if values != [] {
      JointsRest(gaps);
      var rest := Weave(gaps[1..], values[1..]);
      var y := Cells(gaps[1..], values[1..], values[0]);
      CellsText(gaps[1..], values[1..], values[0]);
      TextAppend(GapCells(gaps[0], v), y);
      Regroup(v, gaps[0], values[0], rest);
    }
  }

  lemma Regroup(a: string, b: string, c: string, d: string)
    ensures (a + b) + (c + d) == a + (b + c + d)
  {}

  lemma {:induction false} CellsBase(gaps: seq<string>, values: seq<string>, v: string)
    requires |gaps| == |values| + 1
    ensures Base(Cells(gaps, values, v)) == Join(gaps)
    decreases |values|
  {
    var x := GapCells(gaps[0], v);
    assert Base(x) == gaps[0];
    if values == [] {
      assert gaps[1..] == [];
    } else {
      var y := Cells(gaps[1..], values[1..], values[0]);
      CellsBase(gaps[1..], values[1..], values[0]);
      assert Base(x + y) == Base(x) + Base(y);
    }
  }

  // ----- where the values stand

  function HoleAt(gaps: seq<string>, k: nat): nat
    requires k < |gaps|
  {
    |gaps[0]| + if k == 0 then 0 else HoleAt(gaps[1..], k - 1)
  }

  lemma {:induction false} PlacedShift(gaps: seq<string>, values: seq<string>, from: nat, shift: nat, k: nat)
    requires |gaps| == |values| + 1 && k < |values|
    ensures var p, q := Placed(gaps, values, from)[k], Placed(gaps, values, from + shift)[k];
      q.start == p.start + shift && q.end == p.end + shift
    decreases |values|
  {
    if k > 0 {
      PlacedShift(gaps[1..], values[1..], from + |gaps[0]| + |values[0]|, shift, k - 1);
    }
  }

  ghost predicate StandsAt(a: seq<Cell>, i: nat, start: nat, end: nat, value: string) {
    i < |a| && a[i].value == value && At(a, i) == start && Char(a, i) == end
  }

  lemma {:induction false} HoleStands(gaps: seq<string>, values: seq<string>, v: string, k: nat)
    requires |gaps| == |values| + 1 && Joints(gaps) && (gaps[0] == "" ==> v == "") && k < |values|
    ensures var p := Placed(gaps, values, |v|)[k];
      StandsAt(Cells(gaps, values, v), HoleAt(gaps, k), p.start, p.end, values[k])
    decreases |values|
  {
    hide Flat, GapCells;
    var x := GapCells(gaps[0], v);
    GapFlat(gaps[0], v, |gaps[0]|);
    JointsRest(gaps);
    var y := Cells(gaps[1..], values[1..], values[0]);
    if k == 0 {
      FirstCell(gaps[1..], values[1..], values[0]);
      StandsAfter(x, y, 0, 0, |values[0]|, values[0]);
    } else {
      HoleStands(gaps[1..], values[1..], values[0], k - 1);
      var p := Placed(gaps[1..], values[1..], |values[0]|)[k - 1];
      StandsAfter(x, y, HoleAt(gaps[1..], k - 1), p.start, p.end, values[k]);
      PlacedShift(gaps[1..], values[1..], |values[0]|, |v| + |gaps[0]|, k - 1);
    }
  }

  lemma StandsAfter(x: seq<Cell>, y: seq<Cell>, j: nat, start: nat, end: nat, value: string)
    requires StandsAt(y, j, start, end, value)
    ensures StandsAt(x + y, |x| + j, At(x, |x|) + start, At(x, |x|) + end, value)
  {
    AtAppend(x, y, j);
    assert (x + y)[|x| + j] == y[j];
  }

  lemma FirstCell(gaps: seq<string>, values: seq<string>, v: string)
    requires |gaps| == |values| + 1 && gaps[0] != ""
    ensures Cells(gaps, values, v) != [] && Cells(gaps, values, v)[0] == Cell(v, gaps[0][0])
  {}

  // ----- the cells fit

  ghost predicate FitsAfter(a: seq<Cell>, before: char, i: nat)
    requires i < |a|
  {
    a[i].value != "" ==> (if i == 0 then before else a[i - 1].c) == '[' && a[i].c == ']' && Plain(a[i].value)
  }

  lemma {:induction false} CellsFitAfter(gaps: seq<string>, values: seq<string>, v: string, before: char, i: nat)
    requires |gaps| == |values| + 1 && Joints(gaps) && i < |Cells(gaps, values, v)|
    requires v != "" ==> before == '[' && gaps[0] != "" && gaps[0][0] == ']' && Plain(v)
    requires forall k :: 0 <= k < |values| ==> Plain(values[k])
    ensures FitsAfter(Cells(gaps, values, v), before, i)
    decreases |values|
  {
    if values != [] {
      var x := GapCells(gaps[0], v);
      var y := Cells(gaps[1..], values[1..], values[0]);
      assert Cells(gaps, values, v) == x + y;
      JointsRest(gaps);
      if i >= |x| {
        CellsFitAfter(gaps[1..], values[1..], values[0], '[', i - |x|);
      }
    }
  }

  lemma CellsFit(gaps: seq<string>, values: seq<string>)
    requires |gaps| == |values| + 1 && Joints(gaps)
    requires forall k :: 0 <= k < |values| ==> Plain(values[k])
    ensures Fits(Cells(gaps, values, ""))
  {
    var a := Cells(gaps, values, "");
    forall i | 0 <= i < |a| ensures FitsAt(a, i) {
      CellsFitAfter(gaps, values, "", ' ', i);
    }
  }

  // ----- the scanner's spans

  lemma {:induction false} SpansApart(html: string, tokens: seq<Token>, lo: nat)
    requires Laid(html, tokens, lo, |html|)
    ensures Apart(Spans(tokens), lo, |html|) && Own(html, Spans(tokens))
  {
    if tokens != [] {
      assert tokens[0] in tokens;
      forall k | k in tokens[1..] ensures k in tokens {}
      SpansApart(html, tokens[1..], tokens[0].valueEnd + 1);
      var spans := Spans(tokens);
      forall i | 0 <= i < |spans| ensures spans[i].start <= spans[i].end <= |html| && spans[i].value == html[spans[i].start..spans[i].end] {
        assert tokens[i] in tokens;
      }
    }
  }

  lemma {:induction false} GapsJoin(html: string, tokens: seq<Token>, from: nat, lo: nat)
    requires Laid(html, tokens, lo, |html|) && from <= lo <= |html|
    requires from < lo || (tokens != [] ==> from < tokens[0].valueStart)
    ensures Joints(Gaps(html, Spans(tokens), from))
    decreases |tokens|
  {
    if tokens != [] {
      var k := tokens[0];
      assert k in tokens && TokenReads(html, k);
      forall x | x in tokens[1..] ensures x in tokens {}
      var rest := Gaps(html, Spans(tokens[1..]), k.valueEnd);
      GapsJoin(html, tokens[1..], k.valueEnd, k.valueEnd + 1);
      FirstOfGaps(html, tokens[1..], k.valueEnd);
      var g0 := html[from..k.valueStart];
      assert g0[|g0| - 1] == html[k.valueStart - 1];
      JointsCons(g0, rest);
      assert Gaps(html, Spans(tokens), from) == [g0] + rest;
    }
  }

  lemma JointsCons(g0: string, rest: seq<string>)
    requires g0 != "" && g0[|g0| - 1] == '[' && rest != [] && rest[0] != "" && rest[0][0] == ']' && Joints(rest)
    ensures Joints([g0] + rest)
  {
    var gaps := [g0] + rest;
    forall i | 0 <= i < |gaps| - 1 ensures JointAt(gaps, i) {
      if i > 0 { assert JointAt(rest, i - 1); }
    }
  }

  lemma FirstOfGaps(html: string, tokens: seq<Token>, from: nat)
    requires from < |html| && html[from] == ']' && Laid(html, tokens, from + 1, |html|)
    ensures var g := Gaps(html, Spans(tokens), from)[0]; g != "" && g[0] == ']'
  {}

  // ----- base tokens stand at the holes

  lemma {:induction false} TokensLift(g: Grammar, a: seq<Cell>, t: string, sections: seq<Section>)
    requires forall s :: s in sections ==> SectionWithin(s, |a|)
    ensures Within(Tokens(sections), |a|)
    ensures Tokens(LiftSections(g, a, t, sections)) == LiftTokens(g, a, t, Tokens(sections))
  {
    if sections != [] {
      var s, rest := sections[0], sections[1..];
      assert s in sections && s.head in [s.head];
      TokensLift(g, a, t, rest);
      var lifted := LiftSection(g, a, t, s);
      TaskTokensLift(g, a, t, s.tasks, lifted.head.value);
      LiftAppend(g, a, t, [s.head], TaskTokens(s.tasks));
      LiftAppend(g, a, t, [s.head] + TaskTokens(s.tasks), Tokens(rest));
      assert LiftTokens(g, a, t, [s.head]) == [lifted.head];
    }
  }

  lemma {:induction false} TaskTokensLift(g: Grammar, a: seq<Cell>, t: string, tasks: seq<TaskSlice>, marker: string)
    requires forall k :: k in tasks ==> TaskWithin(k, |a|)
    ensures Within(TaskTokens(tasks), |a|)
    ensures TaskTokens(LiftTasks(g, a, t, tasks, marker)) == LiftTokens(g, a, t, TaskTokens(tasks))
  {
    if tasks != [] {
      assert tasks[0] in tasks;
      TaskTokensLift(g, a, t, tasks[1..], marker);
      LiftAppend(g, a, t, tasks[0].tokens, TaskTokens(tasks[1..]));
    }
  }

  lemma {:induction false} LiftAppend(g: Grammar, a: seq<Cell>, t: string, x: seq<Token>, y: seq<Token>)
    requires Within(x, |a|) && Within(y, |a|)
    ensures Within(x + y, |a|)
    ensures LiftTokens(g, a, t, x + y) == LiftTokens(g, a, t, x) + LiftTokens(g, a, t, y)
  {
    var l, r := LiftTokens(g, a, t, x + y), LiftTokens(g, a, t, x) + LiftTokens(g, a, t, y);
    forall i | 0 <= i < |l| ensures l[i] == r[i] {
      if i < |x| { assert (x + y)[i] == x[i]; } else { assert (x + y)[i] == y[i - |x|]; }
    }
  }

  ghost predicate AlignedAt(tokens: seq<Token>, gaps: seq<string>, k: nat)
    requires k < |tokens| < |gaps|
  {
    tokens[k].valueStart == HoleAt(gaps, k) == tokens[k].valueEnd
  }

  ghost predicate Aligned(tokens: seq<Token>, gaps: seq<string>) {
    |gaps| == |tokens| + 1 && forall k {:trigger AlignedAt(tokens, gaps, k)} :: 0 <= k < |tokens| ==> AlignedAt(tokens, gaps, k)
  }

  lemma SamePlace(a: seq<Cell>, i: nat, j: nat)
    requires i <= |a| && j < |a| && (At(a, i) == At(a, j) || Char(a, i) == Char(a, j))
    ensures i == j
  {
    if i < j { Ordered(a, i, j); } else { Ordered(a, j, i); }
  }

  lemma BaseIsAligned(g: Grammar, gaps: seq<string>, values: seq<string>, t: string, base: seq<Token>)
    requires |gaps| == |values| + 1 && Joints(gaps) && |base| == |values| && Within(base, |Cells(gaps, values, "")|)
    requires Spans(LiftTokens(g, Cells(gaps, values, ""), t, base)) == Placed(gaps, values, 0)
    ensures Aligned(base, gaps)
  {
    var a := Cells(gaps, values, "");
    forall k | 0 <= k < |base| ensures AlignedAt(base, gaps, k) {
      HoleStands(gaps, values, "", k);
      assert base[k] in base;
      assert Spans(LiftTokens(g, a, t, base))[k] == Placed(gaps, values, 0)[k];
      SamePlace(a, base[k].valueStart, HoleAt(gaps, k));
      SamePlace(a, base[k].valueEnd, HoleAt(gaps, k));
    }
  }

  /** A base token, read back at its hole: the value written there, at the place it was put. */
  lemma ReadBack(g: Grammar, gaps: seq<string>, values: seq<string>, k: nat, base: Token)
    requires |gaps| == |values| + 1 && Joints(gaps) && k < |values|
    requires base.valueStart == HoleAt(gaps, k) == base.valueEnd && base.start <= |Cells(gaps, values, "")|
    ensures HoleAt(gaps, k) <= |Cells(gaps, values, "")|
    ensures var lifted := LiftToken(g, Cells(gaps, values, ""), Weave(gaps, values), base);
      && lifted.value == values[k] && lifted.milestone == base.milestone && lifted.task == base.task
      && lifted.valueStart == Placed(gaps, values, 0)[k].start && lifted.valueEnd == Placed(gaps, values, 0)[k].end
  {
    var a := Cells(gaps, values, "");
    HoleStands(gaps, values, "", k);
    CellsText(gaps, values, "");
    assert "" + Weave(gaps, values) == Weave(gaps, values);
    FlatReads(a, |a|, HoleAt(gaps, k));
  }

  // ----- the same plan, with other values

  ghost predicate SameToken(k: Token, k': Token, f: Token -> string) {
    k'.value == f(k) && k'.milestone == k.milestone && k'.task == k.task
  }

  ghost predicate SameTokens(x: seq<Token>, y: seq<Token>, f: Token -> string) {
    |x| == |y| && forall i :: 0 <= i < |x| ==> SameToken(x[i], y[i], f)
  }

  ghost predicate SameTasks(x: seq<TaskSlice>, y: seq<TaskSlice>, f: Token -> string) {
    if x == [] || y == [] then x == [] && y == []
    else
      && x[0].number == y[0].number && x[0].milestone == y[0].milestone && SameTokens(x[0].tokens, y[0].tokens, f)
      && SameTasks(x[1..], y[1..], f)
  }

  /** Section by section and task by task the same plan, each value mapped by f. */
  ghost predicate SamePlan(x: seq<Section>, y: seq<Section>, f: Token -> string) {
    if x == [] || y == [] then x == [] && y == []
    else
      && SameToken(x[0].head, y[0].head, f) && SameTasks(x[0].tasks, y[0].tasks, f)
      && (forall k :: k in y[0].tasks ==> k.marker == y[0].head.value)
      && SamePlan(x[1..], y[1..], f)
  }

  ghost predicate Lifts(g: Grammar, a: seq<Cell>, t: string, a': seq<Cell>, t': string, k: Token, f: Token -> string) {
    && k.start <= |a| && k.valueStart <= |a| && k.valueEnd <= |a| && |a'| == |a|
    && SameToken(LiftToken(g, a, t, k), LiftToken(g, a', t', k), f)
  }

  lemma {:induction false} TasksAlike(g: Grammar, a: seq<Cell>, t: string, a': seq<Cell>, t': string, tasks: seq<TaskSlice>,
                                      marker: string, marker': string, f: Token -> string)
    requires |a'| == |a| && forall k :: k in tasks ==> TaskWithin(k, |a|)
    requires forall k :: k in TaskTokens(tasks) ==> Lifts(g, a, t, a', t', k, f)
    ensures SameTasks(LiftTasks(g, a, t, tasks, marker), LiftTasks(g, a', t', tasks, marker'), f)
    ensures forall k :: k in LiftTasks(g, a', t', tasks, marker') ==> k.marker == marker'
  {
    if tasks != [] {
      var x := tasks[0].tokens;
      assert tasks[0] in tasks;
      var y, z := LiftTokens(g, a, t, x), LiftTokens(g, a', t', x);
      forall i | 0 <= i < |x| ensures SameToken(y[i], z[i], f) {
        assert x[i] in TaskTokens(tasks);
      }
      TasksAlike(g, a, t, a', t', tasks[1..], marker, marker', f);
    }
  }

  lemma {:induction false} SectionsAlike(g: Grammar, a: seq<Cell>, t: string, a': seq<Cell>, t': string, sections: seq<Section>, f: Token -> string)
    requires |a'| == |a| && forall s :: s in sections ==> SectionWithin(s, |a|)
    requires forall k :: k in Tokens(sections) ==> Lifts(g, a, t, a', t', k, f)
    ensures SamePlan(LiftSections(g, a, t, sections), LiftSections(g, a', t', sections), f)
  {
    if sections != [] {
      var s := sections[0];
      assert s in sections && s.head in [s.head];
      assert s.head in Tokens(sections);
      forall k | k in TaskTokens(s.tasks) ensures Lifts(g, a, t, a', t', k, f) { assert k in Tokens(sections); }
      TasksAlike(g, a, t, a', t', s.tasks, LiftToken(g, a, t, s.head).value, LiftToken(g, a', t', s.head).value, f);
      forall k | k in Tokens(sections[1..]) ensures k in Tokens(sections) {}
      SectionsAlike(g, a, t, a', t', sections[1..], f);
    }
  }

  ghost predicate Readable(g: Grammar, html: string) {
    Sound(g) && Separate(g) && PlainTokens(Tokens(Scan(g, html)))
  }

  lemma {:induction false} HeadsAmongTokens(sections: seq<Section>)
    ensures forall k :: k in Milestones(sections) ==> k in Tokens(sections)
  {
    if sections != [] {
      HeadsAmongTokens(sections[1..]);
    }
  }

  lemma PlanIsLaid(g: Grammar, html: string)
    requires Readable(g, html)
    ensures var tokens := Tokens(Scan(g, html)); var spans := Spans(tokens); var gaps := Gaps(html, spans, 0);
      && Laid(html, tokens, 0, |html|) && Apart(spans, 0, |html|) && Own(html, spans)
      && Joints(gaps) && html == Weave(gaps, Values(spans)) && spans == Placed(gaps, Values(spans), 0)
  {
    var tokens := Tokens(Scan(g, html));
    HeadsAmongTokens(Scan(g, html));
    ScanIsLaid(g, html);
    SpansApart(html, tokens, 0);
    if tokens != [] { assert tokens[0] in tokens; }
    GapsJoin(html, tokens, 0, 0);
    RenderedOwn(html, Spans(tokens), 0);
    RenderedIsWoven(html, Spans(tokens), 0);
    PlacedOwn(html, Spans(tokens), 0);
    assert html[0..] == html;
  }

  lemma ValuesArePlain(tokens: seq<Token>, html: string)
    requires Laid(html, tokens, 0, |html|) && PlainTokens(tokens)
    ensures forall i :: 0 <= i < |tokens| ==> Plain(Values(Spans(tokens))[i])
  {
    forall i | 0 <= i < |tokens| ensures Plain(Values(Spans(tokens))[i]) {
      assert tokens[i] in tokens;
    }
  }

  /** What scanning woven text gives: the base scan, lifted through the cells. */
  lemma ScanWoven(g: Grammar, gaps: seq<string>, values: seq<string>)
    requires Sound(g) && |gaps| == |values| + 1 && Joints(gaps) && forall k :: 0 <= k < |values| ==> Plain(values[k])
    ensures var a := Cells(gaps, values, ""); var base := Scan(g, Join(gaps));
      && |a| == |Join(gaps)| && (forall s :: s in base ==> SectionWithin(s, |a|))
      && Scan(g, Weave(gaps, values)) == LiftSections(g, a, Weave(gaps, values), base)
  {
    var a := Cells(gaps, values, "");
    CellsText(gaps, values, "");
    CellsBase(gaps, values, "");
    CellsFit(gaps, values);
    WrittenOut(a);
    assert "" + Weave(gaps, values) == Weave(gaps, values);
    ScanLift(g, a, Weave(gaps, values), Join(gaps));
  }

  /**
   Scanning again after writing status values: the same milestones, tasks and rows,
   each token holding its new value, and not a character outside the values moved.
  */
  lemma ScanAfterWriting(g: Grammar, html: string, f: Token -> string)
    requires Readable(g, html) && forall k :: k in Tokens(Scan(g, html)) ==> Plain(f(k))
    ensures SamePlan(Scan(g, html), Scan(g, Restated(g, html, f)), f)
    ensures Spans(Tokens(Scan(g, Restated(g, html, f))))
            == Placed(Gaps(html, Spans(Tokens(Scan(g, html))), 0), Mapped(Tokens(Scan(g, html)), f), 0)
  {
    var tokens := Tokens(Scan(g, html));
    var gaps, values, news := Gaps(html, Spans(tokens), 0), Values(Spans(tokens)), Mapped(tokens, f);
    PlanIsLaid(g, html);
    ValuesArePlain(tokens, html);
    forall k | 0 <= k < |news| ensures Plain(news[k]) { assert tokens[k] in tokens; }
    ScanWoven(g, gaps, values);
    ScanWoven(g, gaps, news);
    TwoReadings(g, html, gaps, values, f, Scan(g, Join(gaps)));
  }

  lemma TwoReadings(g: Grammar, html: string, gaps: seq<string>, values: seq<string>, f: Token -> string, base: seq<Section>)
    requires |gaps| == |values| + 1 && Joints(gaps) && html == Weave(gaps, values)
    requires var a := Cells(gaps, values, ""); |a| == |Join(gaps)| && forall s :: s in base ==> SectionWithin(s, |a|)
    requires var tokens := Tokens(LiftSections(g, Cells(gaps, values, ""), html, base));
      |tokens| == |values| && Spans(tokens) == Placed(gaps, values, 0)
    ensures var a, t := Cells(gaps, values, ""), html;
      var tokens := Tokens(LiftSections(g, a, t, base));
      var news := Mapped(tokens, f);
      var a', t' := Cells(gaps, news, ""), Weave(gaps, news);
      && |a'| == |a|
      && SamePlan(LiftSections(g, a, t, base), LiftSections(g, a', t', base), f)
      && Spans(Tokens(LiftSections(g, a', t', base))) == Placed(gaps, news, 0)
  {
    var a := Cells(gaps, values, "");
    var tokens := Tokens(LiftSections(g, a, html, base));
    var news := Mapped(tokens, f);
    var a', t' := Cells(gaps, news, ""), Weave(gaps, news);
    CellsBase(gaps, news, "");
    TokensLift(g, a, html, base);
    TokensLift(g, a', t', base);
    var k0 := Tokens(base);
    BaseIsAligned(g, gaps, values, html, k0);
    forall k | 0 <= k < |k0| ensures Lifts(g, a, html, a', t', k0[k], f)
      && Spans(LiftTokens(g, a', t', k0))[k] == Placed(gaps, news, 0)[k] {
      assert AlignedAt(k0, gaps, k) && k0[k] in k0;
      ReadBack(g, gaps, values, k, k0[k]);
      ReadBack(g, gaps, news, k, k0[k]);
      PlacedValue(gaps, news, 0, k);
    }
    SectionsAlike(g, a, html, a', t', base, f);
  }

  lemma {:induction false} PlacedValue(gaps: seq<string>, values: seq<string>, from: nat, k: nat)
    requires |gaps| == |values| + 1 && k < |values|
    ensures Placed(gaps, values, from)[k].value == values[k]
    decreases |values|
  {
    if k > 0 { PlacedValue(gaps[1..], values[1..], from + |gaps[0]| + |values[0]|, k - 1); }
  }
}
