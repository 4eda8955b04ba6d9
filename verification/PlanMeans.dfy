/** What the scanner finds in a plan, in the plan's own characters. */
module PlanMeans {
  import opened Text
  import opened PlanScan
  import opened AskedRows

  // ----- the three things it looks for

  ghost predicate AllDigits(d: string) {
    d != "" && forall k :: 0 <= k < |d| ==> '0' <= d[k] <= '9'
  }

  /** A milestone heading: its marked value, and its number up to the colon. */
  ghost predicate HeadingText(text: string, value: string, number: string) {
    ']' !in value && AllDigits(number) && text == "<h3><code class=\"status\">[" + value + "]</code> Milestone M" + number + ":"
  }

  /** A task heading: its number up to the dot. */
  ghost predicate TaskText(text: string, number: string) {
    AllDigits(number) && text == "<h4>" + number + "."
  }

  /** A status token: its value between the brackets. */
  ghost predicate StatusText(text: string, value: string) {
    ']' !in value && text == "<code class=\"status\">[" + value + "]</code>"
  }

  lemma V1Is()
    ensures V1.headTag + V1.open == "<h3><code class=\"status\">[" && V1.open == "<code class=\"status\">[" && V1.close == "]</code>"
    ensures V1.headMid == "]</code> Milestone M" && V1.taskOpen == "<h4>" && V1.sectionEnd == "</section>"
    ensures |V1.headTag + V1.open| == 26 && |V1.headTag| == 4 && |V1.open| == 22 && |V1.close| == 8 && |V1.headMid| == 20 && |V1.taskOpen| == 4
    ensures V1.close[0] == ']' && V1.headMid[0] == ']'
  {}

  lemma {:induction false} DigitsAre(s: string, i: nat, n: nat)
    requires i + n <= |s| && (forall k :: i <= k < i + n ==> '0' <= s[k] <= '9') && (i + n < |s| ==> !('0' <= s[i + n] <= '9'))
    ensures Digits(s, i) == s[i..i + n]
    decreases n
  {
    if n > 0 {
      DigitsAre(s, i + 1, n - 1);
      assert s[i..i + n] == [s[i]] + s[i + 1..i + n];
    }
  }

  lemma MoreDigits(c: char, d: string)
    requires '0' <= c <= '9' && (d == "" || AllDigits(d))
    ensures AllDigits([c] + d)
  {
    forall k | 0 <= k < |[c] + d| ensures '0' <= ([c] + d)[k] <= '9' { if k > 0 { assert ([c] + d)[k] == d[k - 1]; } }
  }

  lemma {:induction false} DigitsRead(s: string, i: nat)
    ensures var d := Digits(s, i);
      d == "" || (i + |d| <= |s| && AllDigits(d) && s[i..i + |d|] == d)
    decreases |s| - i
  {
    hide AllDigits;
    if i < |s| && IsDigit(s[i]) {
      DigitsRead(s, i + 1);
      var d := Digits(s, i + 1);
      MoreDigits(s[i], d);
      assert s[i..i + 1 + |d|] == [s[i]] + s[i + 1..i + 1 + |d|];
      if d == "" { assert s[i + 1..i + 1 + |d|] == d; }
    }
  }

  lemma SlicedAgain(s: string, i: nat, e: nat, a: nat, b: nat)
    requires i <= e <= |s| && a <= b <= e - i
    ensures s[i..e][a..b] == s[i + a..i + b]
  {
    var x, y := s[i..e][a..b], s[i + a..i + b];
    forall k | 0 <= k < b - a ensures x[k] == y[k] { assert s[i..e][a + k] == s[i + (a + k)]; }
  }

  lemma PartsOff(s: string, i: nat, e: nat, open: string, value: string, close: string)
    requires i <= e <= |s| && s[i..e] == open + value + close
    ensures e == i + |open| + |value| + |close| && s[i..i + |open|] == open && s[i + |open|..i + |open| + |value|] == value && s[i + |open| + |value|..e] == close
  {
    var t := s[i..e];
    assert |t| == e - i && |t| == |open| + |value| + |close|;
    assert t[..|open|] == open && t[|open|..|open| + |value|] == value && t[|open| + |value|..] == close;
    SlicedAgain(s, i, e, 0, |open|);
    SlicedAgain(s, i, e, |open|, |open| + |value|);
    SlicedAgain(s, i, e, |open| + |value|, |t|);
  }

  lemma PartsOn(s: string, i: nat, e: nat, open: string, value: string, close: string)
    requires i <= e <= |s| && e == i + |open| + |value| + |close|
    requires s[i..i + |open|] == open && s[i + |open|..i + |open| + |value|] == value && s[i + |open| + |value|..e] == close
    ensures s[i..e] == open + value + close
  {
    assert s[i..e] == s[i..i + |open|] + s[i + |open|..i + |open| + |value|] + s[i + |open| + |value|..e];
  }

  /** Reading parts off a text that starts with them. */
  lemma Parts(s: string, i: nat, e: nat, open: string, value: string, close: string)
    requires i <= e <= |s|
    ensures s[i..e] == open + value + close <==>
      e == i + |open| + |value| + |close| && s[i..i + |open|] == open && s[i + |open|..i + |open| + |value|] == value && s[i + |open| + |value|..e] == close
  {
    if s[i..e] == open + value + close {
      PartsOff(s, i, e, open, value, close);
    } else if e == i + |open| + |value| + |close| && s[i..i + |open|] == open && s[i + |open|..i + |open| + |value|] == value
              && s[i + |open| + |value|..e] == close {
      PartsOn(s, i, e, open, value, close);
    }
  }

  lemma Begins(s: string, i: nat, lit: string)
    ensures StartsAt(s, i, lit) <==> lit == "" || (i + |lit| <= |s| && s[i..i + |lit|] == lit)
  {
    StartsAtIsPrefix(s, i, lit);
  }

  lemma WithoutBracket(s: string, from: nat, to: nat)
    requires from <= to <= |s|
    ensures ']' !in s[from..to] <==> forall k :: from <= k < to ==> s[k] != ']'
  {
    if ']' !in s[from..to] {
      forall k | from <= k < to ensures s[k] != ']' { assert s[from..to][k - from] == s[k]; }
    }
  }

  lemma BracketAt(s: string, i: nat, j: nat, open: string, close: string)
    requires open != "" && close != "" && close[0] == ']'
    ensures Bracketed(s, i, open, close) == Some(j) <==>
      i + |open| <= j && j + |close| <= |s| && s[i..i + |open|] == open && s[j..j + |close|] == close && ']' !in s[i + |open|..j]
  {
    hide StartsAt, FindChar;
    Begins(s, i, open);
    Begins(s, j, close);
    if i + |open| <= |s| {
      FoundChar(s, ']', i + |open|);
      var f := FindChar(s, ']', i + |open|);
      Begins(s, f, close);
      if i + |open| <= j && j + |close| <= |s| {
        WithoutBracket(s, i + |open|, j);
        if s[j..j + |close|] == close { assert s[j] == s[j..j + |close|][0]; }
      }
    }
  }

  /** A status token is matched exactly where one stands. */
  lemma StatusIff(s: string, i: nat, h: Hit)
    ensures MatchRow(V1, s, i) == Some(h) <==>
      i <= h.end <= |s| && h.start == i && h.from == i + 22 && h.from <= h.to && h.end == h.to + 8 && h.name == "" && StatusText(s[i..h.end], s[h.from..h.to])
  {
    hide Bracketed;
    V1Is();
    BracketAt(s, i, h.to, V1.open, V1.close);
    if i <= h.end <= |s| && h.from == i + 22 && h.from <= h.to && h.end == h.to + 8 {
      Parts(s, i, h.end, V1.open, s[h.from..h.to], V1.close);
    }
  }

  lemma TaskIff(s: string, i: nat, h: Hit)
    ensures MatchTask(V1, s, i) == Some(h) <==>
      i <= h.end <= |s| && h.start == i && h.from == i + 4 && h.from <= h.to && h.end == h.to + 1 && TaskText(s[i..h.end], s[h.from..h.to]) && h.name == s[h.from..h.to]
  {
    hide StartsAt, Digits;
    V1Is();
    Begins(s, i, V1.taskOpen);
    DigitsRead(s, i + 4);
    if i <= h.end <= |s| && h.from == i + 4 && h.from <= h.to && h.end == h.to + 1 {
      Parts(s, i, h.end, V1.taskOpen, s[h.from..h.to], ".");
      if TaskText(s[i..h.end], s[h.from..h.to]) {
        var n := s[h.from..h.to];
        forall k | h.from <= k < h.to ensures '0' <= s[k] <= '9' { assert n[k - h.from] == s[k]; }
        assert s[h.to] == s[h.to..h.end][0];
        DigitsAre(s, h.from, h.to - h.from);
      }
    }
    if MatchTask(V1, s, i).Some? { Dotted(s, i); }
  }

  lemma Dotted(s: string, i: nat)
    requires MatchTask(V1, s, i).Some?
    ensures var h := MatchTask(V1, s, i).value;
      i <= h.end <= |s| && h.from == i + 4 && h.from <= h.to && h.end == h.to + 1 && TaskText(s[i..h.end], s[h.from..h.to]) && h.start == i && h.name == s[h.from..h.to]
  {
    hide StartsAt, Digits;
    V1Is();
    var h := MatchTask(V1, s, i).value;
    Begins(s, i, V1.taskOpen);
    DigitsRead(s, i + 4);
    assert s[h.to..h.end] == ".";
    Parts(s, i, h.end, V1.taskOpen, s[h.from..h.to], ".");
  }

  /** A milestone heading is matched exactly where one stands. */
  lemma HeadIff(s: string, i: nat, h: Hit)
    ensures MatchHead(V1, s, i) == Some(h) <==> HeadAt(s, i, h)
  {
    hide Bracketed, Digits, HeadAt;
    if MatchHead(V1, s, i) == Some(h) { HeadReads(s, i, h); }
    if HeadAt(s, i, h) { HeadMatches(s, i, h); }
  }

  ghost predicate HeadAt(s: string, i: nat, h: Hit) {
    && i <= h.end <= |s| && h.start == i && h.from == i + 26 && h.from <= h.to && h.to + 20 < h.end
    && HeadingText(s[i..h.end], s[h.from..h.to], s[h.to + 20..h.end - 1]) && h.name == "M" + s[h.to + 20..h.end - 1]
  }

  lemma HeadReads(s: string, i: nat, h: Hit)
    requires MatchHead(V1, s, i) == Some(h)
    ensures HeadAt(s, i, h)
  {
    hide *;
    var d := HeadTaken(s, i, h);
    HeadBracketed(s, i, h.to);
    FourParts(s, i, h.to, h.end, d);
    HeadIs(s, i, h, d);
  }

  lemma HeadTaken(s: string, i: nat, h: Hit) returns (d: string)
    requires MatchHead(V1, s, i) == Some(h)
    ensures Bracketed(s, i, V1.headTag + V1.open, V1.headMid) == Some(h.to) && h.start == i && h.from == i + 26 && h.name == "M" + d
    ensures h.to + 20 < h.end - 1 && h.end <= |s| && d == s[h.to + 20..h.end - 1] && AllDigits(d) && s[h.end - 1..h.end] == ":"
  {
    hide Bracketed, Digits, AllDigits;
    V1Is();
    d := Digits(s, h.to + 20);
    DigitsRead(s, h.to + 20);
  }

  lemma HeadBracketed(s: string, i: nat, j: nat)
    requires Bracketed(s, i, V1.headTag + V1.open, V1.headMid) == Some(j)
    ensures i + 26 <= j && j + 20 <= |s| && s[i..i + 26] == V1.headTag + V1.open && s[j..j + 20] == V1.headMid && ']' !in s[i + 26..j]
  {
    hide *;
    V1Is();
    BracketAt(s, i, j, V1.headTag + V1.open, V1.headMid);
  }

  lemma HeadIs(s: string, i: nat, h: Hit, d: string)
    requires h.start == i && h.from == i + 26 && h.from <= h.to && h.to + 20 < h.end - 1 && h.end <= |s| && h.name == "M" + d
    requires d == s[h.to + 20..h.end - 1] && AllDigits(d) && ']' !in s[i + 26..h.to]
    requires s[i..h.end] == V1.headTag + V1.open + s[i + 26..h.to] + V1.headMid + d + ":"
    ensures HeadAt(s, i, h)
  {
    hide AllDigits;
    V1Is();
    Regrouped(s[i + 26..h.to], d);
  }

  lemma Regrouped(value: string, d: string)
    ensures V1.headTag + V1.open + value + V1.headMid + d + ":" == "<h3><code class=\"status\">[" + value + "]</code> Milestone M" + d + ":"
  {
    hide *;
    V1Is();
  }

  lemma HeadMatches(s: string, i: nat, h: Hit)
    requires HeadAt(s, i, h)
    ensures MatchHead(V1, s, i) == Some(h)
  {
    hide *;
    HeadStands(s, i, h);
    HeadMade(s, i, h);
  }

  lemma HeadIsText(s: string, i: nat, h: Hit)
    requires HeadAt(s, i, h)
    ensures h.start == i && h.from == i + 26 && h.from <= h.to && h.to + 20 < h.end - 1 && h.end <= |s|
    ensures var d := s[h.to + 20..h.end - 1];
      AllDigits(d) && h.name == "M" + d && s[i..h.end] == V1.headTag + V1.open + s[i + 26..h.to] + V1.headMid + d + ":"
    ensures ']' !in s[i + 26..h.to]
  {
    hide AllDigits;
    V1Is();
    SomeDigit(s[h.to + 20..h.end - 1]);
  }

  lemma HeadStands(s: string, i: nat, h: Hit)
    requires HeadAt(s, i, h)
    ensures h.start == i && h.from == i + 26 && h.to + 20 < h.end - 1 && h.end <= |s|
    ensures Bracketed(s, i, V1.headTag + V1.open, V1.headMid) == Some(h.to) && s[h.end - 1] == ':'
    ensures Digits(s, h.to + 20) == s[h.to + 20..h.end - 1] && h.name == "M" + s[h.to + 20..h.end - 1]
  {
    hide *;
    HeadIsText(s, i, h);
    FourParts(s, i, h.to, h.end, s[h.to + 20..h.end - 1]);
    ColonAt(s, h.end - 1);
    DigitsStand(s, h.to + 20, h.end - 1);
    HeadBracket(s, i, h.to);
  }

  lemma ColonAt(s: string, i: nat)
    requires i < |s| && s[i..i + 1] == ":"
    ensures s[i] == ':'
  {
    assert s[i] == s[i..i + 1][0];
  }

  lemma HeadBracket(s: string, i: nat, j: nat)
    requires i + 26 <= j && j + 20 <= |s| && s[i..i + 26] == V1.headTag + V1.open && s[j..j + 20] == V1.headMid && ']' !in s[i + 26..j]
    ensures Bracketed(s, i, V1.headTag + V1.open, V1.headMid) == Some(j)
  {
    hide *;
    V1Is();
    BracketAt(s, i, j, V1.headTag + V1.open, V1.headMid);
  }

  lemma SomeDigit(d: string)
    requires AllDigits(d)
    ensures d != ""
  {}

  lemma DigitsStand(s: string, a: nat, b: nat)
    requires a < b < |s| && AllDigits(s[a..b]) && s[b] == ':'
    ensures Digits(s, a) == s[a..b]
  {
    forall k | a <= k < b ensures '0' <= s[k] <= '9' { assert s[a..b][k - a] == s[k]; }
    DigitsAre(s, a, b - a);
  }

  lemma HeadMade(s: string, i: nat, h: Hit)
    requires h.start == i && h.from == i + 26 && h.to + 20 < h.end - 1 && h.end <= |s|
    requires Bracketed(s, i, V1.headTag + V1.open, V1.headMid) == Some(h.to) && s[h.end - 1] == ':'
    requires Digits(s, h.to + 20) == s[h.to + 20..h.end - 1] && h.name == "M" + s[h.to + 20..h.end - 1]
    ensures MatchHead(V1, s, i) == Some(h)
  {
    hide Bracketed, Digits;
    V1Is();
  }

  lemma FourParts(s: string, i: nat, j: nat, e: nat, d: string)
    requires i + 26 <= j && j + 20 < e <= |s| && |d| == e - 1 - (j + 20)
    ensures s[i..e] == V1.headTag + V1.open + s[i + 26..j] + V1.headMid + d + ":" <==>
      s[i..i + 26] == V1.headTag + V1.open && s[j..j + 20] == V1.headMid && s[j + 20..e - 1] == d && s[e - 1..e] == ":"
  {
    V1Is();
    var value := s[i + 26..j];
    Parts(s, i, e, V1.headTag + V1.open, value, V1.headMid + d + ":");
    Parts(s, j, e, V1.headMid, d, ":");
    assert V1.headTag + V1.open + value + (V1.headMid + d + ":") == V1.headTag + V1.open + value + V1.headMid + d + ":";
  }

  // ----- all matches, leftmost first, none overlapping

  /** Hits found from i on: each a match where it starts, in order and apart, and no match starts anywhere between. */
  ghost predicate Leftmost(g: Grammar, p: Pattern, s: string, i: nat, hits: seq<Hit>) {
    && (forall k :: 0 <= k < |hits| ==> MatchAt(g, p, s, hits[k].start) == Some(hits[k]) && hits[k].start < hits[k].end <= |s|)
    && (forall k, j :: 0 <= k < j < |hits| ==> hits[k].end <= hits[j].start)
    && (forall k :: 0 <= k < |hits| ==> i <= hits[k].start)
    && (forall q: nat :: i <= q < |s| && MatchAt(g, p, s, q).Some? ==> exists k :: 0 <= k < |hits| && hits[k].start <= q < hits[k].end)
  }

  lemma LeftmostSkips(g: Grammar, p: Pattern, s: string, i: nat, hits: seq<Hit>)
    requires Leftmost(g, p, s, i + 1, hits) && (i < |s| ==> MatchAt(g, p, s, i).None?)
    ensures Leftmost(g, p, s, i, hits)
  {
    hide MatchAt;
  }

  lemma LeftmostTakes(g: Grammar, p: Pattern, s: string, i: nat, h: Hit, rest: seq<Hit>)
    requires MatchAt(g, p, s, i) == Some(h) && h.start == i < h.end <= |s| && Leftmost(g, p, s, h.end, rest)
    ensures Leftmost(g, p, s, i, [h] + rest)
  {
    hide MatchAt;
    var hits := [h] + rest;
    forall k, j | 0 <= k < j < |hits| ensures hits[k].end <= hits[j].start {
      assert hits[j] == rest[j - 1];
      if k > 0 { assert hits[k] == rest[k - 1]; }
    }
    forall k | 0 <= k < |hits| ensures MatchAt(g, p, s, hits[k].start) == Some(hits[k]) && i <= hits[k].start < hits[k].end <= |s| {
      if k > 0 { assert hits[k] == rest[k - 1]; }
    }
    forall q: nat | i <= q < |s| && MatchAt(g, p, s, q).Some? ensures exists k :: 0 <= k < |hits| && hits[k].start <= q < hits[k].end {
      TakenCovers(h, rest, q);
    }
  }

  lemma TakenCovers(h: Hit, rest: seq<Hit>, q: nat)
    requires h.start <= q && (q < h.end || exists k :: 0 <= k < |rest| && rest[k].start <= q < rest[k].end)
    ensures exists k :: 0 <= k < |[h] + rest| && ([h] + rest)[k].start <= q < ([h] + rest)[k].end
  {
    if q < h.end {
      assert ([h] + rest)[0].start <= q < ([h] + rest)[0].end;
    } else {
      var k :| 0 <= k < |rest| && rest[k].start <= q < rest[k].end;
      assert ([h] + rest)[k + 1] == rest[k];
    }
  }

  lemma {:induction false} MatchesAre(g: Grammar, p: Pattern, s: string, i: nat)
    requires g.close != ""
    ensures Leftmost(g, p, s, i, MatchAll(g, p, s, i))
    decreases |s| - i
  {
    hide MatchAt, Leftmost;
    if i < |s| {
      match MatchAt(g, p, s, i)
      case None =>
        MatchesAre(g, p, s, i + 1);
        LeftmostSkips(g, p, s, i, MatchAll(g, p, s, i + 1));
      case Some(h) =>
        MatchesAre(g, p, s, h.end);
        LeftmostTakes(g, p, s, i, h, MatchAll(g, p, s, h.end));
    } else {
      NothingFrom(g, p, s, i);
    }
  }

  lemma NothingFrom(g: Grammar, p: Pattern, s: string, i: nat)
    requires i >= |s|
    ensures Leftmost(g, p, s, i, [])
  {}

  // ----- the layout

  lemma {:induction false} SectionAt(g: Grammar, html: string, heads: seq<Hit>, k: nat)
    requires k < |heads|
    ensures |Sections(g, html, heads)| == |heads| && Sections(g, html, heads)[k] == SectionOf(g, html, heads[k..])
    decreases k
  {
    hide SectionOf;
    AsManySections(g, html, heads);
    if k > 0 {
      SectionAt(g, html, heads[1..], k - 1);
      assert heads[1..][k - 1..] == heads[k..];
    } else {
      assert heads[0..] == heads;
    }
  }

  lemma {:induction false} AsManySections(g: Grammar, html: string, heads: seq<Hit>)
    ensures |Sections(g, html, heads)| == |heads|
  {
    hide SectionOf;
    if heads != [] { AsManySections(g, html, heads[1..]); }
  }

  lemma {:induction false} TaskAtPlace(g: Grammar, html: string, start: nat, end: nat, heads: seq<Hit>, milestone: string, marker: string, j: nat)
    requires j < |heads|
    ensures |Tasks(g, html, start, end, heads, milestone, marker)| == |heads|
    ensures Tasks(g, html, start, end, heads, milestone, marker)[j] == TaskOf(g, html, start, end, heads[j..], milestone, marker)
    decreases |heads|
  {
    hide TaskOf;
    if j > 0 {
      TaskAtPlace(g, html, start, end, heads[1..], milestone, marker, j - 1);
      assert heads[1..][j - 1..] == heads[j..];
    } else {
      assert heads[0..] == heads;
      if |heads| > 1 { TaskAtPlace(g, html, start, end, heads[1..], milestone, marker, 0); }
    }
  }

  lemma {:induction false} RowAtPlace(g: Grammar, html: string, offset: nat, hits: seq<Hit>, milestone: string, number: nat, row: nat, j: nat)
    requires j < |hits|
    ensures |RowTokens(g, html, offset, hits, milestone, number, row)| == |hits|
    ensures RowTokens(g, html, offset, hits, milestone, number, row)[j] == TokenOf(g, html, hits[j], offset, hits[j].start, milestone, Some((number, row + j)))
    decreases |hits|
  {
    hide TokenOf;
    if j > 0 { RowAtPlace(g, html, offset, hits[1..], milestone, number, row + 1, j - 1); }
    else if |hits| > 1 { RowAtPlace(g, html, offset, hits[1..], milestone, number, row + 1, 0); }
  }

  /** Where a milestone's block ends: at the next heading, at the first "</section>" after its own, or with the text. */
  ghost predicate BlockEnds(html: string, heads: seq<Hit>, k: nat, end: nat)
    requires k < |heads|
  {
    var next := if k + 1 < |heads| then heads[k + 1].start else |html|;
    && end <= next && (end < next ==> StartsAt(html, end, "</section>"))
    && forall j :: heads[k].start <= j < end ==> !StartsAt(html, j, "</section>")
  }

  /** A heading's token: from the tag behind "<h3>", its value, its milestone's name. */
  ghost predicate HeadingToken(html: string, h: Hit, t: Token) {
    t.start == h.start + 4 && t.valueStart == h.from && t.valueEnd == h.to && t.end == h.to + 8 && t.milestone == h.name && t.task == None
    && t.value == Slice(html, h.from, h.to)
  }

  /** A task: from its heading to the next task heading or the block's end, with its milestone's name and mark. */
  ghost predicate TaskSpan(html: string, start: nat, end: nat, hits: seq<Hit>, j: nat, head: Token, t: TaskSlice)
    requires j < |hits|
  {
    && t.start == start + hits[j].start && t.end == (if j + 1 < |hits| then start + hits[j + 1].start else end)
    && t.number == NumberOf(hits[j].name) && t.milestone == head.milestone && t.marker == head.value
    && var rows := MatchAll(V1, Row, Slice(html, t.start, t.end), 0);
    && |t.tokens| == |rows|
    && forall m :: 0 <= m < |rows| ==> RowToken(html, t, m, rows[m], t.tokens[m])
  }

  /** A row's token: where it stands in the whole text, its value, its task's number and its own place. */
  ghost predicate RowToken(html: string, t: TaskSlice, m: nat, h: Hit, k: Token) {
    && k.start == t.start + h.start && k.valueStart == t.start + h.from && k.valueEnd == t.start + h.to && k.end == t.start + h.to + 8
    && k.milestone == t.milestone && k.task == Some((t.number, m)) && k.value == Slice(html, t.start + h.from, t.start + h.to)
  }

  ghost predicate SectionSpan(html: string, heads: seq<Hit>, k: nat, section: Section, end: nat)
    requires k < |heads|
  {
    && BlockEnds(html, heads, k, end) && HeadingToken(html, heads[k], section.head)
    && var hits := MatchAll(V1, Task, Slice(html, heads[k].start, end), 0);
    && |section.tasks| == |hits|
    && forall j :: 0 <= j < |hits| ==> TaskSpan(html, heads[k].start, end, hits, j, section.head, section.tasks[j])
  }

  ghost predicate SectionFound(html: string, heads: seq<Hit>, k: nat, section: Section)
    requires k < |heads|
  {
    exists end :: SectionSpan(html, heads, k, section, end)
  }

  lemma TaskReads(html: string, start: nat, end: nat, hits: seq<Hit>, j: nat, head: Token, t: TaskSlice)
    requires j < |hits| && t == TaskOf(V1, html, start, end, hits[j..], head.milestone, head.value)
    ensures TaskSpan(html, start, end, hits, j, head, t)
  {
    hide MatchAll;
    V1Is();
    var rows := MatchAll(V1, Row, Slice(html, t.start, t.end), 0);
    forall m | 0 <= m < |rows| ensures |t.tokens| == |rows| && RowToken(html, t, m, rows[m], t.tokens[m]) {
      RowAtPlace(V1, html, t.start, rows, t.milestone, t.number, 0, m);
    }
    if rows == [] { assert RowTokens(V1, html, t.start, [], t.milestone, t.number, 0) == []; }
  }

  lemma BlockEndIs(html: string, heads: seq<Hit>, k: nat)
    requires k < |heads| && heads[k].start <= |html| && (k + 1 < |heads| ==> heads[k].start <= heads[k + 1].start <= |html|)
    ensures BlockEnds(html, heads, k, BlockEnd(V1, html, heads[k..]))
  {
    hide StartsAt, IndexOf;
    V1Is();
    FirstIndex(html, V1.sectionEnd, heads[k].start);
    assert heads[k..][0] == heads[k];
    if k + 1 < |heads| { assert heads[k..][1] == heads[k + 1]; }
  }

  /** The whole scan: one section for each heading in order, each with its block, its mark and its tasks, and each task with its rows. */
  lemma ScanMeans(html: string)
    ensures var heads, sections := MatchAll(V1, Head, html, 0), Scan(V1, html);
      && Leftmost(V1, Head, html, 0, heads) && |sections| == |heads|
      && forall k :: 0 <= k < |heads| ==> SectionFound(html, heads, k, sections[k])
  {
    hide MatchAll, BlockEnd, BlockEnds, HeadToken, Tasks, TaskOf, TaskSpan, MatchAt;
    V1Is();
    var heads, sections := MatchAll(V1, Head, html, 0), Scan(V1, html);
    MatchesAre(V1, Head, html, 0);
    AsManySections(V1, html, heads);
    forall k | 0 <= k < |heads| ensures SectionFound(html, heads, k, sections[k]) {
      SectionAt(V1, html, heads, k);
      var start, end := heads[k].start, BlockEnd(V1, html, heads[k..]);
      assert heads[k..][0] == heads[k];
      BlockEndIs(html, heads, k);
      HeadTokenIs(html, heads[k]);
      var hits := MatchAll(V1, Task, Slice(html, start, end), 0);
      var head := sections[k].head;
      SectionIs(html, heads, k);
      if hits == [] { NoTasks(html, start, end, head); } else { TaskAtPlace(V1, html, start, end, hits, head.milestone, head.value, 0); }
      forall j | 0 <= j < |hits| ensures |sections[k].tasks| == |hits| && TaskSpan(html, start, end, hits, j, head, sections[k].tasks[j]) {
        TaskAtPlace(V1, html, start, end, hits, head.milestone, head.value, j);
        TaskReads(html, start, end, hits, j, head, sections[k].tasks[j]);
      }
      assert SectionSpan(html, heads, k, sections[k], end);
    }
  }

  lemma NoTasks(html: string, start: nat, end: nat, head: Token)
    ensures Tasks(V1, html, start, end, [], head.milestone, head.value) == []
  {}

  lemma HeadTokenIs(html: string, h: Hit)
    ensures HeadingToken(html, h, HeadToken(V1, html, h))
  {
    V1Is();
  }

  lemma SectionIs(html: string, heads: seq<Hit>, k: nat)
    requires k < |heads|
    ensures var section, start, end := SectionOf(V1, html, heads[k..]), heads[k].start, BlockEnd(V1, html, heads[k..]);
      && section.head == HeadToken(V1, html, heads[k])
      && section.tasks == Tasks(V1, html, start, end, MatchAll(V1, Task, Slice(html, start, end), 0), section.head.milestone, section.head.value)
  {
    hide MatchAll, BlockEnd, HeadToken, Tasks;
    assert heads[k..][0] == heads[k];
  }
}
