/** The tokens a scan finds: where they stand, what they hold, and that they never overlap. */
module ScanOrder {
  import opened Text
  import opened PlanScan
  import opened Holes
  import opened Rescan

  /** One after another between lo and hi, at least a character apart. */
  ghost predicate TokensApart(tokens: seq<Token>, lo: nat, hi: nat) {
    if tokens == [] then lo <= hi
    else lo <= tokens[0].valueStart <= tokens[0].valueEnd < hi && TokensApart(tokens[1..], tokens[0].valueEnd + 1, hi)
  }

  /** A token's value is the text between its brackets, with no closing bracket inside. */
  ghost predicate TokenReads(html: string, k: Token) {
    && 0 < k.valueStart <= k.valueEnd < |html|
    && html[k.valueStart - 1] == '[' && html[k.valueEnd] == ']'
    && k.value == html[k.valueStart..k.valueEnd] && ']' !in k.value
  }

  /** Tokens in order between lo and hi, each reading what it covers. */
  ghost predicate Laid(html: string, tokens: seq<Token>, lo: nat, hi: nat) {
    TokensApart(tokens, lo, hi) && forall k :: k in tokens ==> TokenReads(html, k)
  }

  /** Tokens apart stand one after another. */
  lemma {:induction false} TokensInOrder(tokens: seq<Token>, lo: nat, hi: nat)
    requires TokensApart(tokens, lo, hi)
    ensures forall k :: k in tokens ==> lo <= k.valueStart <= k.valueEnd < hi
    ensures forall i, j :: 0 <= i < j < |tokens| ==> tokens[i].valueStart <= tokens[i].valueEnd < tokens[j].valueStart
  {
    if tokens != [] {
      TokensInOrder(tokens[1..], tokens[0].valueEnd + 1, hi);
      forall i, j | 0 <= i < j < |tokens| ensures tokens[i].valueStart <= tokens[i].valueEnd < tokens[j].valueStart {
        assert tokens[j] == tokens[1..][j - 1] && tokens[j] in tokens[1..];
        if i > 0 { assert tokens[i] == tokens[1..][i - 1]; }
      }
    }
  }

  lemma {:induction false} ApartAppend(x: seq<Token>, y: seq<Token>, lo: nat, mid: nat, hi: nat)
    requires TokensApart(x, lo, mid) && TokensApart(y, mid, hi)
    ensures TokensApart(x + y, lo, hi)
  {
    if x == [] {
      assert x + y == y;
      ApartLower(y, mid, lo, hi);
    } else {
      assert (x + y)[1..] == x[1..] + y;
      ApartAppend(x[1..], y, x[0].valueEnd + 1, mid, hi);
      ApartUpper(x, lo, mid, hi, y);
    }
  }

  lemma ApartLower(y: seq<Token>, mid: nat, lo: nat, hi: nat)
    requires TokensApart(y, mid, hi) && lo <= mid
    ensures TokensApart(y, lo, hi)
  {}

  lemma {:induction false} ApartBounds(x: seq<Token>, lo: nat, hi: nat)
    requires TokensApart(x, lo, hi)
    ensures lo <= hi
  {
    if x != [] { ApartBounds(x[1..], x[0].valueEnd + 1, hi); }
  }

  lemma ApartUpper(x: seq<Token>, lo: nat, mid: nat, hi: nat, y: seq<Token>)
    requires x != [] && TokensApart(x, lo, mid) && TokensApart(y, mid, hi)
    ensures x[0].valueEnd < hi
  {
    ApartBounds(y, mid, hi);
  }

  // ----- what a match says about the text

  lemma {:induction false} FoundFirst(s: string, c: char, i: nat)
    requires i <= |s|
    ensures forall k :: i <= k < FindChar(s, c, i) ==> s[k] != c
    decreases |s| - i
  {
    if i < |s| && s[i] != c { FoundFirst(s, c, i + 1); }
  }

  lemma BracketedReads(s: string, i: nat, open: string, close: string)
    requires open != "" && open[|open| - 1] == '[' && close != "" && close[0] == ']'
    requires Bracketed(s, i, open, close).Some?
    ensures var j := Bracketed(s, i, open, close).value;
      && StartsAt(s, i, open) && 0 < i + |open| <= j < |s| && s[i + |open| - 1] == '[' && s[j] == ']'
      && ']' !in s[i + |open|..j]
  {
    StartsAtIsPrefix(s, i, open);
    assert s[i..i + |open|][|open| - 1] == s[i + |open| - 1];
    FoundFirst(s, ']', i + |open|);
  }

  ghost predicate HitReads(s: string, h: Hit) {
    && h.start < h.from <= h.to < h.end <= |s|
    && s[h.from - 1] == '[' && s[h.to] == ']' && ']' !in s[h.from..h.to]
  }

  lemma HitsReadAt(g: Grammar, s: string, i: nat)
    requires Sound(g)
    ensures MatchRow(g, s, i).Some? ==> HitReads(s, MatchRow(g, s, i).value)
    ensures MatchHead(g, s, i).Some? ==> HitReads(s, MatchHead(g, s, i).value)
  {
    if Bracketed(s, i, g.open, g.close).Some? {
      BracketedReads(s, i, g.open, g.close);
    }
    if Bracketed(s, i, g.headTag + g.open, g.headMid).Some? {
      BracketedReads(s, i, g.headTag + g.open, g.headMid);
    }
  }

  ghost predicate AllRead(s: string, hits: seq<Hit>) {
    forall h :: h in hits ==> HitReads(s, h)
  }

  lemma {:induction false} AllHitsRead(g: Grammar, p: Pattern, s: string, i: nat)
    requires Sound(g) && p != Task
    ensures AllRead(s, MatchAll(g, p, s, i))
    decreases |s| - i
  {
    if i < |s| {
      HitsReadAt(g, s, i);
      var here := MatchAt(g, p, s, i);
      AllHitsRead(g, p, s, if here.None? then i + 1 else here.value.end);
    }
  }

  // ----- rows, tasks, sections

  lemma {:induction false} RowsOrdered(g: Grammar, html: string, from: nat, to: nat, hits: seq<Hit>, i: nat,
                                       milestone: string, number: nat, row: nat)
    requires from <= to <= |html| && i <= to - from
    requires AllRead(Slice(html, from, to), hits) && InOrder(hits, i)
    ensures TokensApart(RowTokens(g, html, from, hits, milestone, number, row), from + i, to)
    ensures forall k :: k in RowTokens(g, html, from, hits, milestone, number, row) ==> TokenReads(html, k)
    decreases |hits|
  {
    if hits != [] {
      var h := hits[0];
      assert h in hits;
      HitInSlice(g, html, from, to, h, milestone, Some((number, row)));
      RestInOrder(hits, i);
      forall x | x in hits[1..] ensures x in hits {}
      RowsOrdered(g, html, from, to, hits[1..], h.end, milestone, number, row + 1);
      var rest := RowTokens(g, html, from, hits[1..], milestone, number, row + 1);
      var k := TokenOf(g, html, h, from, h.start, milestone, Some((number, row)));
      assert ([k] + rest)[1..] == rest;
      ApartLower(rest, from + h.end, k.valueEnd + 1, to);
    }
  }

  lemma RestInOrder(hits: seq<Hit>, i: nat)
    requires hits != [] && InOrder(hits, i)
    ensures InOrder(hits[1..], hits[0].end)
  {
    forall h | h in hits[1..] ensures hits[0].end <= h.start < h.end {
      var k :| 0 <= k < |hits[1..]| && hits[1..][k] == h;
      assert hits[k + 1] == h && h in hits;
    }
  }

  lemma HitInSlice(g: Grammar, html: string, from: nat, to: nat, h: Hit, milestone: string, task: Option<(nat, nat)>)
    requires from <= to <= |html| && HitReads(Slice(html, from, to), h)
    ensures TokenReads(html, TokenOf(g, html, h, from, h.start, milestone, task))
    ensures TokenOf(g, html, h, from, h.start, milestone, task).valueEnd < to
  {
    var s := Slice(html, from, to);
    assert s[h.from - 1] == html[from + h.from - 1];
    ReadMoved(html, from, to, h.from, h.to);
  }

  ghost predicate HitsWithin(hits: seq<Hit>, n: nat) {
    forall h :: h in hits ==> h.end <= n
  }

  lemma {:induction false} MatchesWithin(g: Grammar, p: Pattern, s: string, i: nat)
    requires Sound(g)
    ensures HitsWithin(MatchAll(g, p, s, i), |s|)
    decreases |s| - i
  {
    if i < |s| {
      var here := MatchAt(g, p, s, i);
      MatchesWithin(g, p, s, if here.None? then i + 1 else here.value.end);
    }
  }

  lemma {:induction false} TasksOrdered(g: Grammar, html: string, start: nat, end: nat, heads: seq<Hit>, i: nat,
                                        milestone: string, marker: string)
    requires Sound(g) && start <= end <= |html| && i <= end - start
    requires InOrder(heads, i) && HitsWithin(heads, end - start)
    ensures Laid(html, TaskTokens(Tasks(g, html, start, end, heads, milestone, marker)), start + i, end)
    decreases |heads|
  {
    hide InOrder, HitsWithin, MatchAll, TaskAt, Sound;
    if heads != [] {
      var to := TaskEnd(start, end, heads);
      HeadsStep(heads, i, end - start);
      TasksOrdered(g, html, start, end, heads[1..], to - start, milestone, marker);
      TaskRows(g, html, start + heads[0].start, to, milestone, marker, NumberOf(heads[0].name));
      var k := TaskOf(g, html, start, end, heads, milestone, marker);
      var rest := Tasks(g, html, start, end, heads[1..], milestone, marker);
      TasksCons(html, Tasks(g, html, start, end, heads, milestone, marker), k, rest, start + i, start + heads[0].start, to, end);
    }
  }

  lemma HeadsStep(heads: seq<Hit>, i: nat, n: nat)
    requires heads != [] && InOrder(heads, i) && HitsWithin(heads, n)
    ensures var next := TaskEnd(0, n, heads);
      i <= heads[0].start <= next <= n && InOrder(heads[1..], next) && HitsWithin(heads[1..], n)
  {
    assert heads[0] in heads;
    if |heads| > 1 { assert heads[1] in heads; }
    RestInOrder(heads, i);
    NextFrom(heads, TaskEnd(0, n, heads));
    forall x | x in heads[1..] ensures x in heads {}
  }

  lemma TasksCons(html: string, all: seq<TaskSlice>, k: TaskSlice, rest: seq<TaskSlice>, lo: nat, from: nat, to: nat, hi: nat)
    requires lo <= from && Laid(html, k.tokens, from, to) && Laid(html, TaskTokens(rest), to, hi)
    requires all == [k] + rest
    ensures Laid(html, TaskTokens(all), lo, hi)
  {
    assert all[1..] == rest;
    ApartLower(k.tokens, from, lo, to);
    ApartAppend(k.tokens, TaskTokens(rest), lo, to, hi);
  }

  lemma NextFrom(heads: seq<Hit>, i: nat)
    requires heads != [] && InOrder(heads[1..], heads[0].end)
    requires |heads| > 1 ==> i == heads[1].start
    ensures InOrder(heads[1..], i)
  {
    var rest := heads[1..];
    forall h | h in rest ensures i <= h.start < h.end {
      var k :| 0 <= k < |rest| && rest[k] == h;
      assert rest[0] == heads[1] && rest[0] in rest;
      if k > 0 { assert rest[0].end <= rest[k].start; }
    }
  }

  lemma TaskRows(g: Grammar, html: string, from: nat, to: nat, milestone: string, marker: string, number: nat)
    requires Sound(g) && from <= to <= |html|
    ensures Laid(html, TaskAt(g, html, from, to, number, milestone, marker).tokens, from, to)
  {
    var s := Slice(html, from, to);
    AllHitsRead(g, Row, s, 0);
    MatchAllInOrder(g, Row, s, 0);
    RowsOrdered(g, html, from, to, MatchAll(g, Row, s, 0), 0, milestone, number, 0);
  }

  // ----- a heading, then its tasks

  /** A milestone heading as the scan sees it: its opening, a value without `<`, a closing bracket. */
  ghost predicate HeadReads(g: Grammar, html: string, h: Hit) {
    && HitReads(html, h) && h.from == h.start + |g.headTag + g.open| && StartsAt(html, h.start, g.headTag + g.open)
  }

  ghost predicate PlainHead(html: string, h: Hit) {
    h.from <= h.to <= |html| && '<' !in html[h.from..h.to]
  }

  lemma {:induction false} HeadsRead(g: Grammar, html: string, i: nat)
    requires Sound(g)
    ensures forall h :: h in MatchAll(g, Head, html, i) ==> HeadReads(g, html, h)
    decreases |html| - i
  {
    if i < |html| {
      HitsReadAt(g, html, i);
      var here := MatchAt(g, Head, html, i);
      HeadsRead(g, html, if here.None? then i + 1 else here.value.end);
    }
  }

  lemma NothingStartsInHead(g: Grammar, html: string, h: Hit, lit: string, q: nat)
    requires HeadReads(g, html, h) && PlainHead(html, h)
    requires lit != "" && lit[0] == '<' && h.start <= q <= h.to
    requires q < h.from ==> Clashes(g.headTag + g.open, q - h.start, lit)
    ensures !StartsAt(html, q, lit)
  {
    var open := g.headTag + g.open;
    StartsAtIsPrefix(html, h.start, open);
    if q < h.from {
      var m :| 0 <= m < |lit| && q - h.start + m < |open| && open[q - h.start + m] != lit[m];
      assert html[h.start..h.start + |open|][q - h.start + m] == html[q + m];
      Disagrees(html, q, lit, m);
    } else {
      if q < h.to { assert html[q] == html[h.from..h.to][q - h.from]; }
      Disagrees(html, q, lit, 0);
    }
  }

  lemma Disagrees(s: string, q: nat, lit: string, m: nat)
    requires m < |lit| && q + m < |s| && s[q + m] != lit[m]
    ensures !StartsAt(s, q, lit)
  {
    StartsAtIsPrefix(s, q, lit);
    if q + |lit| <= |s| { assert s[q..q + |lit|][m] == s[q + m]; }
  }

  lemma StartsInSlice(html: string, from: nat, to: nat, i: nat, lit: string)
    requires from <= to <= |html| && lit != "" && StartsAt(Slice(html, from, to), i, lit)
    ensures StartsAt(html, from + i, lit) && from + i < to
  {
    var s := Slice(html, from, to);
    assert s == html[from..to];
    StartsAtIsPrefix(s, i, lit);
    StartsAtIsPrefix(html, from + i, lit);
    assert s[i..i + |lit|] == html[from + i..from + i + |lit|];
  }

  lemma {:induction false} TasksStartLater(g: Grammar, s: string, i: nat, least: nat)
    requires g.close != "" && forall q :: 0 <= q < least ==> !StartsAt(s, q, g.taskOpen)
    ensures forall h :: h in MatchAll(g, Task, s, i) ==> least <= h.start
    decreases |s| - i
  {
    if i < |s| {
      var here := MatchTask(g, s, i);
      assert MatchAt(g, Task, s, i) == here;
      TasksStartLater(g, s, if here.None? then i + 1 else here.value.end, least);
    }
  }

  function NextHead(html: string, heads: seq<Hit>): nat {
    if |heads| > 1 then heads[1].start else |html|
  }

  lemma BlockCoversHead(g: Grammar, html: string, heads: seq<Hit>)
    requires Sound(g) && Separate(g) && heads != [] && HeadReads(g, html, heads[0]) && PlainHead(html, heads[0])
    requires heads[0].to < NextHead(html, heads)
    ensures heads[0].to < BlockEnd(g, html, heads) <= NextHead(html, heads)
  {
    var h := heads[0];
    var closing := IndexOf(html, g.sectionEnd, h.start);
    if closing.Some? && closing.value <= h.to {
      NothingStartsInHead(g, html, h, g.sectionEnd, closing.value);
    }
  }

  lemma TokenOfHead(g: Grammar, html: string, h: Hit)
    requires HitReads(html, h)
    ensures var k := HeadToken(g, html, h); TokenReads(html, k) && k.valueStart == h.from && k.valueEnd == h.to
  {}

  lemma TasksAfterHead(g: Grammar, html: string, h: Hit, end: nat)
    requires Sound(g) && Separate(g) && HeadReads(g, html, h) && PlainHead(html, h) && h.to < end <= |html|
    ensures InOrder(MatchAll(g, Task, Slice(html, h.start, end), 0), h.to + 1 - h.start)
  {
    var s := Slice(html, h.start, end);
    forall q | 0 <= q < h.to + 1 - h.start ensures !StartsAt(s, q, g.taskOpen) {
      if StartsAt(s, q, g.taskOpen) {
        StartsInSlice(html, h.start, end, q, g.taskOpen);
        NothingStartsInHead(g, html, h, g.taskOpen, h.start + q);
      }
    }
    TasksStartLater(g, s, 0, h.to + 1 - h.start);
    MatchAllInOrder(g, Task, s, 0);
  }

  lemma SectionLaid(g: Grammar, html: string, heads: seq<Hit>)
    requires Sound(g) && Separate(g) && heads != [] && HeadReads(g, html, heads[0]) && PlainHead(html, heads[0])
    requires heads[0].to < NextHead(html, heads) <= |html|
    ensures Laid(html, [SectionOf(g, html, heads).head] + TaskTokens(SectionOf(g, html, heads).tasks), heads[0].start, NextHead(html, heads))
  {
    var h, end := heads[0], BlockEnd(g, html, heads);
    BlockCoversHead(g, html, heads);
    TasksAfterHead(g, html, h, end);
    var hits := MatchAll(g, Task, Slice(html, h.start, end), 0);
    MatchesWithin(g, Task, Slice(html, h.start, end), 0);
    var head := HeadToken(g, html, h);
    TokenOfHead(g, html, h);
    TasksOrdered(g, html, h.start, end, hits, h.to + 1 - h.start, head.milestone, head.value);
    var tasks := Tasks(g, html, h.start, end, hits, head.milestone, head.value);
    assert SectionOf(g, html, heads) == Section(head, tasks);
    HeadThenTasks(html, head, TaskTokens(tasks), h.start, end, NextHead(html, heads));
  }

  lemma HeadThenTasks(html: string, head: Token, tokens: seq<Token>, lo: nat, end: nat, hi: nat)
    requires TokenReads(html, head) && lo <= head.valueStart && head.valueEnd < end <= hi
    requires Laid(html, tokens, head.valueEnd + 1, end)
    ensures Laid(html, [head] + tokens, lo, hi)
  {
    assert ([head] + tokens)[1..] == tokens;
    ApartWiden(tokens, head.valueEnd + 1, end, hi);
  }

  lemma {:induction false} ApartWiden(x: seq<Token>, lo: nat, hi: nat, upper: nat)
    requires TokensApart(x, lo, hi) && hi <= upper
    ensures TokensApart(x, lo, upper)
  {
    if x != [] { ApartWiden(x[1..], x[0].valueEnd + 1, hi, upper); }
  }

  lemma {:induction false} SectionsLaid(g: Grammar, html: string, heads: seq<Hit>, i: nat)
    requires Sound(g) && Separate(g) && InOrder(heads, i) && HitsWithin(heads, |html|) && i <= |html|
    requires forall h :: h in heads ==> HeadReads(g, html, h) && PlainHead(html, h)
    ensures Laid(html, Tokens(Sections(g, html, heads)), i, |html|)
    decreases |heads|
  {
    if heads == [] {
      assert Laid(html, Tokens(Sections(g, html, heads)), i, |html|);
    } else {
      HeadsStep(heads, i, |html|);
      assert heads[0] in heads;
      var next := NextHead(html, heads);
      if |heads| > 1 { assert heads[0].end <= heads[1].start; }
      SectionLaid(g, html, heads);
      forall x | x in heads[1..] ensures x in heads {}
      SectionsLaid(g, html, heads[1..], next);
      SectionsCons(html, Sections(g, html, heads), SectionOf(g, html, heads), Sections(g, html, heads[1..]), i, heads[0].start, next, |html|);
      assert Laid(html, Tokens(Sections(g, html, heads)), i, |html|);
    }
  }

  lemma SectionsCons(html: string, all: seq<Section>, s: Section, rest: seq<Section>, lo: nat, from: nat, mid: nat, hi: nat)
    requires lo <= from && all == [s] + rest
    requires Laid(html, [s.head] + TaskTokens(s.tasks), from, mid) && Laid(html, Tokens(rest), mid, hi)
    ensures Laid(html, Tokens(all), lo, hi)
  {
    assert all[1..] == rest;
    var own := [s.head] + TaskTokens(s.tasks);
    ApartLower(own, from, lo, mid);
    ApartAppend(own, Tokens(rest), lo, mid, hi);
  }

  ghost predicate PlainTokens(tokens: seq<Token>) {
    forall k :: k in tokens ==> '<' !in k.value
  }

  /** The tokens of a plan whose values hold no `<` stand in text order, apart, in bounds, each with the text it covers. */
  lemma ScanIsLaid(g: Grammar, html: string)
    requires Sound(g) && Separate(g) && PlainTokens(Milestones(Scan(g, html)))
    ensures Laid(html, Tokens(Scan(g, html)), 0, |html|)
  {
    var heads := MatchAll(g, Head, html, 0);
    HeadsRead(g, html, 0);
    MatchAllInOrder(g, Head, html, 0);
    MatchesWithin(g, Head, html, 0);
    HeadsArePlain(g, html, heads);
    SectionsLaid(g, html, heads, 0);
  }

  lemma {:induction false} HeadsArePlain(g: Grammar, html: string, heads: seq<Hit>)
    requires forall h :: h in heads ==> HeadReads(g, html, h)
    requires PlainTokens(Milestones(Sections(g, html, heads)))
    ensures forall h :: h in heads ==> PlainHead(html, h)
    decreases |heads|
  {
    if heads != [] {
      var rest := Milestones(Sections(g, html, heads[1..]));
      var head := HeadToken(g, html, heads[0]);
      assert Milestones(Sections(g, html, heads)) == [head] + rest;
      assert head in [head] + rest && forall k :: k in rest ==> k in [head] + rest;
      assert heads[0] in heads;
      assert head.value == html[heads[0].from..heads[0].to];
      forall x | x in heads[1..] ensures x in heads {}
      HeadsArePlain(g, html, heads[1..]);
      forall h | h in heads ensures PlainHead(html, h) {
        if h != heads[0] {
          var k :| 0 <= k < |heads| && heads[k] == h;
          assert heads[1..][k - 1] == h;
        }
      }
    }
  }
}
