/** What the scanner finds in a text, it finds in the base text: section by section, token by token. */
module Rescan {
  import opened Text
  import opened PlanScan
  import opened Holes

  // ----- slices of the text are slices of the cells

  ghost predicate Edge(a: seq<Cell>, i: nat) {
    i <= |a| && (i < |a| ==> a[i].value == "")
  }

  lemma {:induction false} SubAt(a: seq<Cell>, from: nat, to: nat, k: nat)
    requires Edge(a, from) && Edge(a, to) && from <= to && k <= to - from
    ensures At(a[from..to], k) + At(a, from) == At(a, from + k)
    ensures Char(a[from..to], k) + At(a, from) == Char(a, from + k)
    ensures At(a, from) == Char(a, from)
  {
    if k > 0 {
      SubAt(a, from, to, k - 1);
    }
  }

  lemma SubCells(a: seq<Cell>, t: string, b: string, from: nat, to: nat)
    requires Written(a, t, b) && Fits(a) && Edge(a, from) && Edge(a, to) && from <= to
    ensures Fits(a[from..to])
    ensures Written(a[from..to], Slice(t, Char(a, from), Char(a, to)), Slice(b, from, to))
  {
    hide Fits, FitsAt, ReadsAt, At, Char;
    SubFits(a, from, to);
    var s, ts, bs := a[from..to], Slice(t, Char(a, from), Char(a, to)), Slice(b, from, to);
    SubLengths(a, t, b, from, to);
    forall i | 0 <= i < |s| ensures ReadsAt(s, ts, bs, i) {
      SubRead(a, t, b, from, to, i);
    }
  }

  lemma SubFits(a: seq<Cell>, from: nat, to: nat)
    requires Fits(a) && Edge(a, from) && Edge(a, to) && from <= to
    ensures Fits(a[from..to])
  {
    var s := a[from..to];
    forall i | 0 <= i < |s| ensures FitsAt(s, i) {
      assert FitsAt(a, from + i);
      if i == 0 { assert s[0] == a[from]; } else { assert s[i - 1] == a[from + i - 1]; }
    }
  }

  lemma SubLengths(a: seq<Cell>, t: string, b: string, from: nat, to: nat)
    requires Written(a, t, b) && Edge(a, from) && Edge(a, to) && from <= to
    ensures |Slice(b, from, to)| == to - from && |Slice(t, Char(a, from), Char(a, to))| == At(a[from..to], to - from)
  {
    hide ReadsAt;
    Ordered(a, from, to);
    Ordered(a, to, |a|);
    SubAt(a, from, to, to - from);
  }

  lemma SubRead(a: seq<Cell>, t: string, b: string, from: nat, to: nat, i: nat)
    requires Written(a, t, b) && Edge(a, from) && Edge(a, to) && from <= to && i < to - from
    ensures |Slice(b, from, to)| == to - from
    ensures ReadsAt(a[from..to], Slice(t, Char(a, from), Char(a, to)), Slice(b, from, to), i)
  {
    hide Slice;
    assert ReadsAt(a, t, b, from + i);
    SubAt(a, from, to, i);
    Ordered(a, from, to);
    Ordered(a, from + i, to);
    Ordered(a, to, |a|);
    SliceOfBase(b, from, to, i);
    ReadMoved(t, Char(a, from), Char(a, to), At(a[from..to], i), Char(a[from..to], i));
  }

  lemma SliceOfBase(b: string, from: nat, to: nat, i: nat)
    requires from <= to <= |b| && i < to - from
    ensures |Slice(b, from, to)| == to - from && Slice(b, from, to)[i] == b[from + i]
  {}

  lemma ReadMoved(t: string, from: nat, to: nat, lo: nat, hi: nat)
    requires from <= to <= |t| && lo <= hi < to - from
    ensures |Slice(t, from, to)| == to - from
    ensures Slice(t, from, to)[hi] == t[from + hi] && Slice(t, from, to)[lo..hi] == t[from + lo..from + hi]
  {
    assert Slice(t, from, to) == t[from..to];
    assert t[from..to][lo..hi] == t[from + lo..from + hi];
  }

  // ----- matches come in order

  ghost predicate InOrder(hits: seq<Hit>, i: nat) {
    && (forall h :: h in hits ==> i <= h.start < h.end)
    && (forall j, k :: 0 <= j < k < |hits| ==> hits[j].end <= hits[k].start)
  }

  lemma {:induction false} MatchAllInOrder(g: Grammar, p: Pattern, s: string, i: nat)
    requires g.close != ""
    ensures InOrder(MatchAll(g, p, s, i), i)
    decreases |s| - i
  {
    if i < |s| {
      var here := MatchAt(g, p, s, i);
      if here.None? {
        MatchAllInOrder(g, p, s, i + 1);
      } else {
        MatchAllInOrder(g, p, s, here.value.end);
        ConsInOrder(here.value, MatchAll(g, p, s, here.value.end), i);
      }
    }
  }

  lemma ConsInOrder(h: Hit, rest: seq<Hit>, i: nat)
    requires InOrder(rest, h.end) && i <= h.start < h.end
    ensures InOrder([h] + rest, i)
  {
    var all := [h] + rest;
    forall j, k | 0 <= j < k < |all| ensures all[j].end <= all[k].start {
      assert all[k] == rest[k - 1] && rest[k - 1] in rest;
      if j > 0 { assert all[j] == rest[j - 1]; }
    }
  }

  // ----- tokens

  function LiftToken(g: Grammar, a: seq<Cell>, t: string, k: Token): Token
    requires k.start <= |a| && k.valueStart <= |a| && k.valueEnd <= |a|
  {
    Token(Char(a, k.start), Char(a, k.valueEnd) + |g.close|, At(a, k.valueStart), Char(a, k.valueEnd),
          Slice(t, At(a, k.valueStart), Char(a, k.valueEnd)), k.milestone, k.task)
  }

  ghost predicate Within(tokens: seq<Token>, n: nat) {
    forall k :: k in tokens ==> k.start <= n && k.valueStart <= n && k.valueEnd <= n
  }

  function LiftTokens(g: Grammar, a: seq<Cell>, t: string, tokens: seq<Token>): (r: seq<Token>)
    requires Within(tokens, |a|)
    ensures |r| == |tokens| && forall i :: 0 <= i < |r| ==> r[i] == LiftToken(g, a, t, tokens[i])
  {
    if tokens == [] then [] else [LiftToken(g, a, t, tokens[0])] + LiftTokens(g, a, t, tokens[1..])
  }

  lemma {:induction false} RowsLift(g: Grammar, a: seq<Cell>, t: string, b: string, from: nat, to: nat,
                                    hits: seq<Hit>, milestone: string, number: nat, row: nat)
    requires Edge(a, from) && Edge(a, to) && from <= to && Anchored(a[from..to], hits)
    ensures Within(RowTokens(g, b, from, hits, milestone, number, row), |a|)
    ensures RowTokens(g, t, Char(a, from), MovedAll(a[from..to], hits), milestone, number, row)
            == LiftTokens(g, a, t, RowTokens(g, b, from, hits, milestone, number, row))
  {
    if hits != [] {
      var h, s := hits[0], a[from..to];
      assert h in hits;
      forall x | x in hits[1..] ensures x in hits {}
      RowsLift(g, a, t, b, from, to, hits[1..], milestone, number, row + 1);
      TokenLift(g, a, t, b, from, to, h, milestone, Some((number, row)));
      var k := TokenOf(g, b, h, from, h.start, milestone, Some((number, row)));
      var rest := RowTokens(g, b, from, hits[1..], milestone, number, row + 1);
      assert RowTokens(g, b, from, hits, milestone, number, row) == [k] + rest;
      assert ([k] + rest)[1..] == rest;
      assert MovedAll(s, hits)[1..] == MovedAll(s, hits[1..]);
    }
  }

  lemma TokenLift(g: Grammar, a: seq<Cell>, t: string, b: string, from: nat, to: nat, h: Hit, milestone: string, task: Option<(nat, nat)>)
    requires Edge(a, from) && Edge(a, to) && from <= to && h.start <= h.from <= h.to < h.end <= to - from
    ensures var m := Moved(a[from..to], h); var k := TokenOf(g, b, h, from, h.start, milestone, task);
      && k.start <= |a| && k.valueStart <= |a| && k.valueEnd <= |a|
      && TokenOf(g, t, m, Char(a, from), m.start, milestone, task) == LiftToken(g, a, t, k)
  {
    SubAt(a, from, to, h.start);
    SubAt(a, from, to, h.from);
    SubAt(a, from, to, h.to);
  }

  // ----- tasks

  ghost predicate TaskWithin(k: TaskSlice, n: nat) {
    k.start <= n && k.end <= n && Within(k.tokens, n)
  }

  function LiftTask(g: Grammar, a: seq<Cell>, t: string, k: TaskSlice, marker: string): TaskSlice
    requires TaskWithin(k, |a|)
  {
    TaskSlice(k.number, k.milestone, marker, Char(a, k.start), Char(a, k.end), LiftTokens(g, a, t, k.tokens))
  }

  function LiftTasks(g: Grammar, a: seq<Cell>, t: string, tasks: seq<TaskSlice>, marker: string): (r: seq<TaskSlice>)
    requires forall k :: k in tasks ==> TaskWithin(k, |a|)
    ensures |r| == |tasks|
  {
    if tasks == [] then [] else [LiftTask(g, a, t, tasks[0], marker)] + LiftTasks(g, a, t, tasks[1..], marker)
  }

  lemma EdgeAt(a: seq<Cell>, i: nat)
    requires Fits(a) && i < |a| && a[i].c != ']'
    ensures Edge(a, i)
  {
    assert FitsAt(a, i);
  }

  lemma TaskLifts(g: Grammar, a: seq<Cell>, t: string, b: string, start: nat, end: nat, heads: seq<Hit>,
                 milestone: string, marker: string, lifted: string)
    requires Sound(g) && Written(a, t, b) && Fits(a) && Edge(a, start) && Edge(a, end) && start <= end
    requires heads != [] && Anchored(a[start..end], heads) && InOrder(heads, 0)
    ensures TaskWithin(TaskOf(g, b, start, end, heads, milestone, marker), |a|)
    ensures TaskOf(g, t, Char(a, start), Char(a, end), MovedAll(a[start..end], heads), milestone, lifted)
            == LiftTask(g, a, t, TaskOf(g, b, start, end, heads, milestone, marker), lifted)
  {
    hide TaskOf, TaskAt, LiftTask, MovedAll, InOrder, Written, Fits;
    var from, to := start + heads[0].start, TaskEnd(start, end, heads);
    TaskEdges(a, start, end, heads);
    TaskOfMoved(g, b, start, end, heads, heads, from, to, milestone, marker);
    TaskOfMoved(g, t, Char(a, start), Char(a, end), heads, MovedAll(a[start..end], heads), Char(a, from), Char(a, to), milestone, lifted);
    TaskAtLift(g, a, t, b, from, to, NumberOf(heads[0].name), milestone, marker, lifted);
  }

  function TaskEnd(start: nat, end: nat, heads: seq<Hit>): nat {
    if |heads| > 1 then start + heads[1].start else end
  }

  lemma TaskOfMoved(g: Grammar, t: string, start: nat, end: nat, heads: seq<Hit>, moved: seq<Hit>, from: nat, to: nat,
                    milestone: string, marker: string)
    requires |moved| == |heads| > 0 && moved[0].name == heads[0].name
    requires start + moved[0].start == from && TaskEnd(start, end, moved) == to
    ensures TaskOf(g, t, start, end, moved, milestone, marker) == TaskAt(g, t, from, to, NumberOf(heads[0].name), milestone, marker)
  {}

  lemma TaskEdges(a: seq<Cell>, start: nat, end: nat, heads: seq<Hit>)
    requires Fits(a) && Edge(a, start) && Edge(a, end) && start <= end
    requires heads != [] && Anchored(a[start..end], heads) && InOrder(heads, 0)
    ensures var from, to := start + heads[0].start, TaskEnd(start, end, heads);
      && Edge(a, from) && Edge(a, to) && from <= to
      && Char(a, start) + MovedAll(a[start..end], heads)[0].start == Char(a, from)
      && TaskEnd(Char(a, start), Char(a, end), MovedAll(a[start..end], heads)) == Char(a, to)
  {
    hide Fits, Edge, Anchored, InOrder, Char, MovedAll;
    HeadEdge(a, start, end, heads, 0);
    if |heads| > 1 {
      HeadEdge(a, start, end, heads, 1);
    }
  }

  lemma HeadEdge(a: seq<Cell>, start: nat, end: nat, heads: seq<Hit>, i: nat)
    requires Fits(a) && Edge(a, start) && Edge(a, end) && start <= end
    requires i < |heads| && Anchored(a[start..end], heads) && InOrder(heads, 0)
    ensures Edge(a, start + heads[i].start) && start + heads[i].start <= end
    ensures Char(a, start) + Char(a[start..end], heads[i].start) == Char(a, start + heads[i].start)
    ensures i > 0 ==> heads[0].start <= heads[i].start
  {
    assert heads[i] in heads && heads[0] in heads;
    assert a[start + heads[i].start] == a[start..end][heads[i].start];
    SubAt(a, start, end, heads[i].start);
    EdgeAt(a, start + heads[i].start);
  }

  lemma TaskAtLift(g: Grammar, a: seq<Cell>, t: string, b: string, from: nat, to: nat, number: nat,
                   milestone: string, marker: string, lifted: string)
    requires Sound(g) && Written(a, t, b) && Fits(a) && Edge(a, from) && Edge(a, to) && from <= to
    ensures TaskWithin(TaskAt(g, b, from, to, number, milestone, marker), |a|)
    ensures TaskAt(g, t, Char(a, from), Char(a, to), number, milestone, lifted)
            == LiftTask(g, a, t, TaskAt(g, b, from, to, number, milestone, marker), lifted)
  {
    var s, ts, bs := a[from..to], Slice(t, Char(a, from), Char(a, to)), Slice(b, from, to);
    SubCells(a, t, b, from, to);
    MatchAllAnchored(g, Row, s, ts, bs, 0);
    MatchAllLift(g, Row, s, ts, bs, 0);
    RowsLift(g, a, t, b, from, to, MatchAll(g, Row, bs, 0), milestone, number, 0);
  }

  lemma {:induction false} TasksLift(g: Grammar, a: seq<Cell>, t: string, b: string, start: nat, end: nat, heads: seq<Hit>,
                                     milestone: string, marker: string, lifted: string)
    requires Sound(g) && Written(a, t, b) && Fits(a) && Edge(a, start) && Edge(a, end) && start <= end
    requires Anchored(a[start..end], heads) && InOrder(heads, 0)
    ensures forall k :: k in Tasks(g, b, start, end, heads, milestone, marker) ==> TaskWithin(k, |a|)
    ensures Tasks(g, t, Char(a, start), Char(a, end), MovedAll(a[start..end], heads), milestone, lifted)
            == LiftTasks(g, a, t, Tasks(g, b, start, end, heads, milestone, marker), lifted)
    decreases |heads|
  {
    if heads != [] {
      TaskLifts(g, a, t, b, start, end, heads, milestone, marker, lifted);
      forall x | x in heads[1..] ensures x in heads {}
      TasksLift(g, a, t, b, start, end, heads[1..], milestone, marker, lifted);
      var k := TaskOf(g, b, start, end, heads, milestone, marker);
      var rest := Tasks(g, b, start, end, heads[1..], milestone, marker);
      assert Tasks(g, b, start, end, heads, milestone, marker) == [k] + rest;
      assert ([k] + rest)[1..] == rest;
      assert MovedAll(a[start..end], heads)[1..] == MovedAll(a[start..end], heads[1..]);
    }
  }

  // ----- sections

  ghost predicate SectionWithin(s: Section, n: nat) {
    Within([s.head], n) && forall k :: k in s.tasks ==> TaskWithin(k, n)
  }

  function LiftSection(g: Grammar, a: seq<Cell>, t: string, s: Section): Section
    requires SectionWithin(s, |a|)
  {
    assert s.head in [s.head];
    var head := LiftToken(g, a, t, s.head);
    Section(head, LiftTasks(g, a, t, s.tasks, head.value))
  }

  function LiftSections(g: Grammar, a: seq<Cell>, t: string, sections: seq<Section>): (r: seq<Section>)
    requires forall s :: s in sections ==> SectionWithin(s, |a|)
    ensures |r| == |sections|
  {
    if sections == [] then [] else [LiftSection(g, a, t, sections[0])] + LiftSections(g, a, t, sections[1..])
  }

  lemma BlockEndLift(g: Grammar, a: seq<Cell>, t: string, b: string, heads: seq<Hit>)
    requires Sound(g) && Written(a, t, b) && Fits(a) && heads != [] && Anchored(a, heads) && InOrder(heads, 0)
    ensures var end := BlockEnd(g, b, heads); heads[0].start <= end && Edge(a, end) && Edge(a, heads[0].start)
    ensures BlockEnd(g, t, MovedAll(a, heads)) == Char(a, BlockEnd(g, b, heads))
  {
    assert heads[0] in heads;
    EdgeAt(a, heads[0].start);
    var next := if |heads| > 1 then heads[1].start else |b|;
    if |heads| > 1 { assert heads[1] in heads; EdgeAt(a, next); }
    FreeOfBrackets(a);
    IndexLift(a, t, b, g.sectionEnd, heads[0].start, Char(a, heads[0].start));
    var closing := IndexOf(b, g.sectionEnd, heads[0].start);
    if closing.Some? {
      assert ReadsAt(a, t, b, closing.value);
      EdgeAt(a, closing.value);
      if next <= closing.value { Ordered(a, next, closing.value); } else { Ordered(a, closing.value, next); }
    }
  }

  lemma HeadTokenLift(g: Grammar, a: seq<Cell>, t: string, b: string, h: Hit)
    requires Sound(g) && Written(a, t, b) && Fits(a) && h.start <= h.from <= h.to < h.end <= |a|
    requires StartsAt(b, h.start, g.headTag + g.open)
    ensures Within([HeadToken(g, b, h)], |a|)
    ensures HeadToken(g, t, Moved(a, h)) == LiftToken(g, a, t, HeadToken(g, b, h))
  {
    var open := g.headTag + g.open;
    StartsAtIsPrefix(b, h.start, open);
    forall j | h.start <= j < h.start + |g.headTag| ensures a[j].c != '[' {
      assert ReadsAt(a, t, b, j);
      assert b[h.start..h.start + |open|][j - h.start] == open[j - h.start];
    }
    InStep(a, h.start, |g.headTag|);
  }

  ghost predicate Headed(g: Grammar, b: string, heads: seq<Hit>) {
    forall h :: h in heads ==> StartsAt(b, h.start, g.headTag + g.open)
  }

  lemma {:induction false} HeadsAreHeaded(g: Grammar, b: string, i: nat)
    ensures Headed(g, b, MatchAll(g, Head, b, i))
    decreases |b| - i
  {
    if i < |b| {
      var here := MatchHead(g, b, i);
      assert MatchAt(g, Head, b, i) == here;
      if here.None? {
        HeadsAreHeaded(g, b, i + 1);
      } else {
        HeadsAreHeaded(g, b, here.value.end);
      }
    }
  }

  lemma SectionLifts(g: Grammar, a: seq<Cell>, t: string, b: string, heads: seq<Hit>)
    requires Sound(g) && Written(a, t, b) && Fits(a) && heads != [] && Anchored(a, heads) && InOrder(heads, 0)
    requires Headed(g, b, heads)
    ensures SectionWithin(SectionOf(g, b, heads), |a|)
    ensures SectionOf(g, t, MovedAll(a, heads)) == LiftSection(g, a, t, SectionOf(g, b, heads))
  {
    assert heads[0] in heads;
    BlockEndLift(g, a, t, b, heads);
    HeadTokenLift(g, a, t, b, heads[0]);
    var start, end := heads[0].start, BlockEnd(g, b, heads);
    var head := HeadToken(g, b, heads[0]);
    var lifted := LiftToken(g, a, t, head);
    BlockLift(g, a, t, b, start, end, head.milestone, head.value, lifted.value);
  }

  lemma BlockLift(g: Grammar, a: seq<Cell>, t: string, b: string, start: nat, end: nat,
                  milestone: string, marker: string, lifted: string)
    requires Sound(g) && Written(a, t, b) && Fits(a) && Edge(a, start) && Edge(a, end) && start <= end
    ensures var heads := MatchAll(g, Task, Slice(b, start, end), 0);
      && (forall k :: k in Tasks(g, b, start, end, heads, milestone, marker) ==> TaskWithin(k, |a|))
      && Tasks(g, t, Char(a, start), Char(a, end), MatchAll(g, Task, Slice(t, Char(a, start), Char(a, end)), 0), milestone, lifted)
         == LiftTasks(g, a, t, Tasks(g, b, start, end, heads, milestone, marker), lifted)
  {
    var s := a[start..end];
    SubCells(a, t, b, start, end);
    MatchAllAnchored(g, Task, s, Slice(t, Char(a, start), Char(a, end)), Slice(b, start, end), 0);
    MatchAllLift(g, Task, s, Slice(t, Char(a, start), Char(a, end)), Slice(b, start, end), 0);
    MatchAllInOrder(g, Task, Slice(b, start, end), 0);
    TasksLift(g, a, t, b, start, end, MatchAll(g, Task, Slice(b, start, end), 0), milestone, marker, lifted);
  }

  lemma {:induction false} SectionsLift(g: Grammar, a: seq<Cell>, t: string, b: string, heads: seq<Hit>)
    requires Sound(g) && Written(a, t, b) && Fits(a) && Anchored(a, heads) && InOrder(heads, 0) && Headed(g, b, heads)
    ensures forall s :: s in Sections(g, b, heads) ==> SectionWithin(s, |a|)
    ensures Sections(g, t, MovedAll(a, heads)) == LiftSections(g, a, t, Sections(g, b, heads))
    decreases |heads|
  {
    if heads != [] {
      SectionLifts(g, a, t, b, heads);
      forall x | x in heads[1..] ensures x in heads {}
      SectionsLift(g, a, t, b, heads[1..]);
      var s, rest := SectionOf(g, b, heads), Sections(g, b, heads[1..]);
      assert Sections(g, b, heads) == [s] + rest;
      assert ([s] + rest)[1..] == rest;
      assert MovedAll(a, heads)[1..] == MovedAll(a, heads[1..]);
    }
  }

  /** Scanning a text finds what scanning its base text finds, each span moved and each value read back. */
  lemma ScanLift(g: Grammar, a: seq<Cell>, t: string, b: string)
    requires Sound(g) && Written(a, t, b) && Fits(a)
    ensures forall s :: s in Scan(g, b) ==> SectionWithin(s, |a|)
    ensures Scan(g, t) == LiftSections(g, a, t, Scan(g, b))
  {
    MatchAllAnchored(g, Head, a, t, b, 0);
    MatchAllLift(g, Head, a, t, b, 0);
    MatchAllInOrder(g, Head, b, 0);
    HeadsAreHeaded(g, b, 0);
    SectionsLift(g, a, t, b, MatchAll(g, Head, b, 0));
  }
}
