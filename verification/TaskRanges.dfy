/** Tasks own disjoint stretches of a plan: a token standing in a task's stretch is one of its rows. */
module TaskRanges {
  import opened Text
  import opened PlanScan
  import opened Rescan
  import opened ScanOrder

  ghost predicate AtAngle(html: string, i: nat) {
    i <= |html| && (i < |html| ==> html[i] == '<')
  }

  ghost predicate RowInside(g: Grammar, html: string, from: nat, to: nat, k: Token) {
    && from <= k.start < k.valueStart <= k.valueEnd && k.end == k.valueEnd + |g.close| <= to <= |html|
    && html[k.start] == '<' && StartsAt(html, k.valueEnd, g.close)
    && k.start + 2 <= k.valueStart && html[k.valueStart - 2] == '>'
  }

  ghost predicate TaskInside(g: Grammar, html: string, t: TaskSlice) {
    && t.start <= t.end && AtAngle(html, t.start) && AtAngle(html, t.end) && Laid(html, t.tokens, t.start, t.end)
    && forall k :: k in t.tokens ==> RowInside(g, html, t.start, t.end, k)
  }

  ghost predicate Ranged(g: Grammar, html: string, tasks: seq<TaskSlice>, lo: nat, hi: nat) {
    if tasks == [] then lo <= hi
    else lo <= tasks[0].start && TaskInside(g, html, tasks[0]) && tasks[0].end <= hi && Ranged(g, html, tasks[1..], tasks[0].end, hi)
  }

  // ----- matches start at an angle bracket

  ghost predicate RowHit(g: Grammar, s: string, h: Hit) {
    && h.start < |s| && s[h.start] == '<' && StartsAt(s, h.to, g.close)
    && h.start < h.from <= h.to && h.end == h.to + |g.close| <= |s|
    && h.start + 2 <= h.from && s[h.from - 2] == '>'
  }

  lemma OpensAt(g: Grammar, s: string, i: nat)
    requires Sound(g) && StartsAt(s, i, g.open)
    ensures i + |g.open| <= |s| && s[i + |g.open| - 2] == '>'
  {
    StartsAtIsPrefix(s, i, g.open);
    assert s[i..i + |g.open|][|g.open| - 2] == g.open[|g.open| - 2];
  }

  lemma {:induction false} RowHits(g: Grammar, s: string, i: nat)
    requires Sound(g)
    ensures forall h :: h in MatchAll(g, Row, s, i) ==> RowHit(g, s, h)
    decreases |s| - i
  {
    if i < |s| {
      var here := MatchRow(g, s, i);
      assert MatchAt(g, Row, s, i) == here;
      if here.Some? { OpensAt(g, s, i); }
      RowHits(g, s, if here.None? then i + 1 else here.value.end);
    }
  }

  ghost predicate Angled(s: string, hits: seq<Hit>) {
    forall h :: h in hits ==> h.start < |s| && s[h.start] == '<'
  }

  lemma {:induction false} AllAngled(g: Grammar, p: Pattern, s: string, i: nat)
    requires Sound(g) && p != Row
    ensures Angled(s, MatchAll(g, p, s, i))
    decreases |s| - i
  {
    if i < |s| {
      assert (g.headTag + g.open)[0] == '<';
      var here := MatchAt(g, p, s, i);
      AllAngled(g, p, s, if here.None? then i + 1 else here.value.end);
    }
  }

  // ----- rows, tasks, sections

  lemma RowHitInside(g: Grammar, html: string, from: nat, to: nat, h: Hit, milestone: string, task: Option<(nat, nat)>)
    requires from <= to <= |html| && RowHit(g, Slice(html, from, to), h) && g.close != ""
    ensures RowInside(g, html, from, to, TokenOf(g, html, h, from, h.start, milestone, task))
  {
    StartsInSlice(html, from, to, h.to, g.close);
    assert Slice(html, from, to)[h.start] == html[from + h.start] && Slice(html, from, to)[h.from - 2] == html[from + h.from - 2];
  }

  lemma {:induction false} RowsInside(g: Grammar, html: string, from: nat, to: nat, hits: seq<Hit>, milestone: string, number: nat, row: nat)
    requires from <= to <= |html| && g.close != "" && forall h :: h in hits ==> RowHit(g, Slice(html, from, to), h)
    ensures forall k :: k in RowTokens(g, html, from, hits, milestone, number, row) ==> RowInside(g, html, from, to, k)
    decreases |hits|
  {
    if hits != [] {
      assert hits[0] in hits;
      RowHitInside(g, html, from, to, hits[0], milestone, Some((number, row)));
      forall h | h in hits[1..] ensures h in hits {}
      RowsInside(g, html, from, to, hits[1..], milestone, number, row + 1);
    }
  }

  lemma TaskAtInside(g: Grammar, html: string, from: nat, to: nat, number: nat, milestone: string, marker: string)
    requires Sound(g) && from <= to && AtAngle(html, from) && AtAngle(html, to)
    ensures TaskInside(g, html, TaskAt(g, html, from, to, number, milestone, marker))
  {
    RowHits(g, Slice(html, from, to), 0);
    TaskRows(g, html, from, to, milestone, marker, number);
    RowsInside(g, html, from, to, MatchAll(g, Row, Slice(html, from, to), 0), milestone, number, 0);
  }

  lemma HeadAngles(html: string, start: nat, end: nat, heads: seq<Hit>)
    requires start <= end && AtAngle(html, end) && heads != [] && Angled(Slice(html, start, end), heads)
    ensures AtAngle(html, start + heads[0].start) && AtAngle(html, TaskEnd(start, end, heads))
  {
    var s := Slice(html, start, end);
    assert heads[0] in heads && s[heads[0].start] == html[start + heads[0].start];
    if |heads| > 1 { assert heads[1] in heads && s[heads[1].start] == html[start + heads[1].start]; }
  }

  lemma {:induction false} TasksRanged(g: Grammar, html: string, start: nat, end: nat, heads: seq<Hit>, i: nat, milestone: string, marker: string)
    requires Sound(g) && start <= end && AtAngle(html, end) && i <= end - start
    requires InOrder(heads, i) && HitsWithin(heads, end - start) && Angled(Slice(html, start, end), heads)
    ensures Ranged(g, html, Tasks(g, html, start, end, heads, milestone, marker), start + i, end)
    decreases |heads|
  {
    hide TaskInside;
    if heads == [] {
      assert Ranged(g, html, Tasks(g, html, start, end, heads, milestone, marker), start + i, end);
    } else {
      var from, to := start + heads[0].start, TaskEnd(start, end, heads);
      HeadsStep(heads, i, end - start);
      HeadAngles(html, start, end, heads);
      TaskAtInside(g, html, from, to, NumberOf(heads[0].name), milestone, marker);
      forall h | h in heads[1..] ensures h in heads {}
      TasksRanged(g, html, start, end, heads[1..], to - start, milestone, marker);
      RangedCons(g, html, Tasks(g, html, start, end, heads, milestone, marker), TaskOf(g, html, start, end, heads, milestone, marker),
                 Tasks(g, html, start, end, heads[1..], milestone, marker), start + i, end);
      assert Ranged(g, html, Tasks(g, html, start, end, heads, milestone, marker), start + i, end);
    }
  }

  lemma RangedCons(g: Grammar, html: string, all: seq<TaskSlice>, t: TaskSlice, rest: seq<TaskSlice>, lo: nat, hi: nat)
    requires all == [t] + rest && lo <= t.start && TaskInside(g, html, t) && t.end <= hi && Ranged(g, html, rest, t.end, hi)
    ensures Ranged(g, html, all, lo, hi)
  {
    assert all[1..] == rest;
  }

  /** Sections own disjoint stretches too, each heading's token before its tasks. */
  ghost predicate SectionsRanged(g: Grammar, html: string, sections: seq<Section>, lo: nat, hi: nat) {
    if sections == [] then lo <= hi
    else
      exists mid ::
        && lo <= sections[0].head.valueStart <= sections[0].head.valueEnd
        && Ranged(g, html, sections[0].tasks, sections[0].head.valueEnd + 1, mid)
        && SectionsRanged(g, html, sections[1..], mid, hi)
  }

  lemma BlockEndAngle(g: Grammar, html: string, heads: seq<Hit>)
    requires Sound(g) && heads != [] && Angled(html, heads)
    ensures AtAngle(html, BlockEnd(g, html, heads))
  {
    if |heads| > 1 { assert heads[1] in heads; }
  }

  lemma SectionRanged(g: Grammar, html: string, heads: seq<Hit>)
    requires Sound(g) && Separate(g) && heads != [] && HeadReads(g, html, heads[0]) && PlainHead(html, heads[0])
    requires heads[0].to < NextHead(html, heads) <= |html| && Angled(html, heads)
    ensures var s := SectionOf(g, html, heads);
      && heads[0].start <= s.head.valueStart <= s.head.valueEnd
      && Ranged(g, html, s.tasks, s.head.valueEnd + 1, NextHead(html, heads))
  {
    var h, end := heads[0], BlockEnd(g, html, heads);
    BlockCoversHead(g, html, heads);
    TasksAfterHead(g, html, h, end);
    BlockEndAngle(g, html, heads);
    var hits := MatchAll(g, Task, Slice(html, h.start, end), 0);
    MatchesWithin(g, Task, Slice(html, h.start, end), 0);
    AllAngled(g, Task, Slice(html, h.start, end), 0);
    TokenOfHead(g, html, h);
    var head := HeadToken(g, html, h);
    TasksRanged(g, html, h.start, end, hits, h.to + 1 - h.start, head.milestone, head.value);
    RangedWiden(g, html, SectionOf(g, html, heads).tasks, head.valueEnd + 1, end, NextHead(html, heads));
  }

  lemma {:induction false} RangedWiden(g: Grammar, html: string, tasks: seq<TaskSlice>, lo: nat, hi: nat, upper: nat)
    requires Ranged(g, html, tasks, lo, hi) && hi <= upper
    ensures Ranged(g, html, tasks, lo, upper)
  {
    if tasks != [] { RangedWiden(g, html, tasks[1..], tasks[0].end, hi, upper); }
  }

  lemma {:induction false} AllSectionsRanged(g: Grammar, html: string, heads: seq<Hit>, i: nat)
    requires Sound(g) && Separate(g) && InOrder(heads, i) && HitsWithin(heads, |html|) && i <= |html| && Angled(html, heads)
    requires forall h :: h in heads ==> HeadReads(g, html, h) && PlainHead(html, h)
    ensures SectionsRanged(g, html, Sections(g, html, heads), i, |html|)
    decreases |heads|
  {
    if heads == [] {
      assert SectionsRanged(g, html, Sections(g, html, heads), i, |html|);
    } else {
      HeadsStep(heads, i, |html|);
      assert heads[0] in heads;
      var next := NextHead(html, heads);
      if |heads| > 1 { assert heads[0].end <= heads[1].start; }
      SectionRanged(g, html, heads);
      forall x | x in heads[1..] ensures x in heads {}
      AllSectionsRanged(g, html, heads[1..], next);
      SectionsRangedCons(g, html, Sections(g, html, heads), SectionOf(g, html, heads), Sections(g, html, heads[1..]), i, next, |html|);
      assert SectionsRanged(g, html, Sections(g, html, heads), i, |html|);
    }
  }

  lemma SectionsRangedCons(g: Grammar, html: string, all: seq<Section>, s: Section, rest: seq<Section>, lo: nat, mid: nat, hi: nat)
    requires all == [s] + rest && lo <= s.head.valueStart <= s.head.valueEnd
    requires Ranged(g, html, s.tasks, s.head.valueEnd + 1, mid) && SectionsRanged(g, html, rest, mid, hi)
    ensures SectionsRanged(g, html, all, lo, hi)
  {
    assert all[1..] == rest;
  }

  lemma ScanIsRanged(g: Grammar, html: string)
    requires Sound(g) && Separate(g) && PlainTokens(Milestones(Scan(g, html)))
    ensures SectionsRanged(g, html, Scan(g, html), 0, |html|)
  {
    var heads := MatchAll(g, Head, html, 0);
    HeadsRead(g, html, 0);
    MatchAllInOrder(g, Head, html, 0);
    MatchesWithin(g, Head, html, 0);
    AllAngled(g, Head, html, 0);
    HeadsArePlain(g, html, heads);
    AllSectionsRanged(g, html, heads, 0);
  }

  // ----- ownership

  lemma {:induction false} RangedAbove(g: Grammar, html: string, tasks: seq<TaskSlice>, lo: nat, hi: nat)
    requires Ranged(g, html, tasks, lo, hi) && g.close != ""
    ensures lo <= hi
    ensures forall k :: k in TaskTokens(tasks) ==> lo <= k.valueStart <= k.valueEnd < hi
    ensures forall t :: t in tasks ==> lo <= t.start <= t.end <= hi && TaskInside(g, html, t)
  {
    if tasks != [] {
      RangedAbove(g, html, tasks[1..], tasks[0].end, hi);
      forall k | k in tasks[0].tokens ensures lo <= k.valueStart <= k.valueEnd < hi {
        assert RowInside(g, html, tasks[0].start, tasks[0].end, k);
        StartsAtIsPrefix(html, k.valueEnd, g.close);
      }
      assert tasks == [tasks[0]] + tasks[1..];
    }
  }

  lemma {:induction false} OwnRows(g: Grammar, html: string, tasks: seq<TaskSlice>, lo: nat, hi: nat, t: TaskSlice, k: Token)
    requires Ranged(g, html, tasks, lo, hi) && g.close != ""
    requires t in tasks && k in TaskTokens(tasks) && t.start <= k.valueStart < t.end
    ensures k in t.tokens
  {
    RangedAbove(g, html, tasks[1..], tasks[0].end, hi);
    RowsEnd(g, html, tasks[0]);
    if t != tasks[0] && k in TaskTokens(tasks[1..]) {
      assert t in tasks[1..];
      OwnRows(g, html, tasks[1..], tasks[0].end, hi, t, k);
    }
  }

  lemma RowsEnd(g: Grammar, html: string, t: TaskSlice)
    requires TaskInside(g, html, t) && g.close != ""
    ensures forall k :: k in t.tokens ==> t.start <= k.valueStart <= k.valueEnd < t.end
  {
    forall k | k in t.tokens ensures t.start <= k.valueStart <= k.valueEnd < t.end {
      assert RowInside(g, html, t.start, t.end, k);
    }
  }

  lemma {:induction false} SectionsAbove(g: Grammar, html: string, sections: seq<Section>, lo: nat, hi: nat)
    requires SectionsRanged(g, html, sections, lo, hi) && g.close != ""
    ensures forall k :: k in Tokens(sections) ==> lo <= k.valueStart
    ensures forall t :: t in AllTasks(sections) ==> lo <= t.start && TaskInside(g, html, t)
  {
    if sections != [] {
      var s := sections[0];
      var mid :| lo <= s.head.valueStart <= s.head.valueEnd && Ranged(g, html, s.tasks, s.head.valueEnd + 1, mid)
                 && SectionsRanged(g, html, sections[1..], mid, hi);
      RangedAbove(g, html, s.tasks, s.head.valueEnd + 1, mid);
      SectionsAbove(g, html, sections[1..], mid, hi);
    }
  }

  /** A token of the plan standing in a task's stretch is one of that task's rows. */
  lemma {:induction false} OwnRowsOfPlan(g: Grammar, html: string, sections: seq<Section>, lo: nat, hi: nat, t: TaskSlice, k: Token)
    requires SectionsRanged(g, html, sections, lo, hi) && g.close != ""
    requires t in AllTasks(sections) && k in Tokens(sections) && t.start <= k.valueStart < t.end
    ensures k in t.tokens
  {
    var s, rest := sections[0], sections[1..];
    var mid :| lo <= s.head.valueStart <= s.head.valueEnd && Ranged(g, html, s.tasks, s.head.valueEnd + 1, mid)
               && SectionsRanged(g, html, rest, mid, hi);
    RangedAbove(g, html, s.tasks, s.head.valueEnd + 1, mid);
    SectionsAbove(g, html, rest, mid, hi);
    if t in s.tasks && k in TaskTokens(s.tasks) {
      OwnRows(g, html, s.tasks, s.head.valueEnd + 1, mid, t, k);
    } else if t in AllTasks(rest) && k in Tokens(rest) {
      OwnRowsOfPlan(g, html, rest, mid, hi, t, k);
    }
  }
}
