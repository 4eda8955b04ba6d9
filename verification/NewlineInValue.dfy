/** A status value that holds a line break: the row of the next token on its line starts inside it, and writing it changes that row. */
module NewlineInValue {
  import opened Text
  import opened PlanScan
  import opened Splice
  import opened Rewrite
  import opened AskedFor
  import opened ValueReadsAsTask
  import opened TwoTickets

  /** A task of two status tokens on one line, the first of this value, the second empty. */
  function Line(c: char): string {
    TASK + ROW + [c] + ROW_END + ROW + ROW_END
  }

  lemma Literals()
    ensures |TASK| == 6 && |ROW| == 22 && |ROW_END| == 8 && V1.open == ROW && V1.close == ROW_END
    ensures TASK[0] == '<' && TASK[1] == 'h' && (forall k :: 1 <= k < 6 ==> TASK[k] != '<')
    ensures ROW[0] == '<' && ROW[1] == 'c' && (forall k :: 1 <= k < 22 ==> ROW[k] != '<')
    ensures ROW_END[0] == ']' && ROW_END[1] == '<' && ROW_END[2] == '/' && (forall k :: 2 <= k < 8 ==> ROW_END[k] != '<')
    ensures '\n' !in TASK && '\n' !in ROW && '\n' !in ROW_END && ']' !in ROW
  {}

  lemma LineIs(c: char)
    ensures var s := Line(c);
      && |s| == 67 && s[6..28] == ROW && s[29..37] == ROW_END && s[37..59] == ROW && s[59..67] == ROW_END && s[28] == c
      && (forall k :: 0 <= k < 6 ==> s[k] == TASK[k]) && (forall k :: 6 <= k < 28 ==> s[k] == ROW[k - 6])
      && (forall k :: 29 <= k < 37 ==> s[k] == ROW_END[k - 29]) && (forall k :: 37 <= k < 59 ==> s[k] == ROW[k - 37])
      && (forall k :: 59 <= k < 67 ==> s[k] == ROW_END[k - 59])
  {
    hide *;
    Literals();
    LineParts(c);
    Pieces(TASK, ROW, [c] + ROW_END + (ROW + ROW_END));
    Pieces([c], ROW_END, ROW + ROW_END);
    Pieces(ROW, "", ROW_END);
    Tail(c);
  }

  lemma Tail(c: char)
    ensures ROW + "" + ROW_END == ROW + ROW_END && |[c]| == 1 && [c][0] == c
  {}

  lemma LineParts(c: char)
    ensures Line(c) == TASK + ROW + ([c] + ROW_END + (ROW + ROW_END))
  {}

  lemma AngleAt(c: char, k: nat)
    requires c != '<' && k < 67
    ensures |Line(c)| == 67 && (Line(c)[k] == '<' ==> k in {0, 6, 30, 37, 60} && Line(c)[k + 1] == if k == 0 then 'h' else if k in {6, 37} then 'c' else '/')
  {
    hide *;
    Literals();
    LineIs(c);
  }

  lemma NoRowBefore(c: char, k: nat)
    requires c != '<' && k < 6
    ensures |Line(c)| == 67 && !StartsAt(Line(c), k, ROW)
  {
    hide *;
    AngleAt(c, k);
    Literals();
    if StartsAt(Line(c), k, ROW) { Second(Line(c), k, ROW); }
  }

  lemma Second(s: string, k: nat, lit: string)
    requires StartsAt(s, k, lit) && |lit| >= 2
    ensures k + 1 < |s| && s[k] == lit[0] && s[k + 1] == lit[1]
  {
    StartsAtIsPrefix(s, k, lit);
    assert s[k..k + |lit|][0] == lit[0] && s[k..k + |lit|][1] == lit[1];
  }

  // ----- the task's two tokens

  lemma RowHere(s: string, i: nat, j: nat)
    requires i + 22 <= j && j + 8 <= |s| && s[i..i + 22] == ROW && s[j..j + 8] == ROW_END && ']' !in s[i + 22..j]
    ensures MatchAt(V1, Row, s, i) == Some(Hit(i, i + 22, j, j + 8, ""))
  {
    hide *;
    Literals();
    Begins(s, i, ROW);
    Begins(s, j, ROW_END);
    assert s[j] == s[j..j + 8][0];
    forall k | i + 22 <= k < j ensures s[k] != ']' { assert s[k] == s[i + 22..j][k - i - 22]; }
    FindsAt(s, i + 22, j);
    RowOf(s, i, j);
  }

  lemma RowOf(s: string, i: nat, j: nat)
    requires V1.open == ROW && V1.close == ROW_END && |ROW| == 22 && |ROW_END| == 8 && i + 22 <= j < |s|
    requires StartsAt(s, i, ROW) && FindChar(s, ']', i + 22) == j && StartsAt(s, j, ROW_END)
    ensures MatchAt(V1, Row, s, i) == Some(Hit(i, i + 22, j, j + 8, ""))
  {
    hide StartsAt, FindChar;
  }

  lemma TwoHits(c: char)
    requires c != '<' && c != ']'
    ensures MatchAll(V1, Row, Line(c), 0) == [Hit(6, 28, 29, 37, ""), Hit(37, 59, 59, 67, "")]
  {
    hide *;
    var s := Line(c);
    LineIs(c);
    forall k | 0 <= k < 6 ensures !StartsAt(s, k, ROW) { NoRowBefore(c, k); }
    SkipRows(s, 0, 6);
    assert s[28..29] == [c] && s[59..59] == [];
    RowHere(s, 6, 29);
    RowHere(s, 37, 59);
    NextHit(s, 6, Hit(6, 28, 29, 37, ""));
    NextHit(s, 37, Hit(37, 59, 59, 67, ""));
    NothingLeft(s, Row);
    TwoOf(Hit(6, 28, 29, 37, ""), Hit(37, 59, 59, 67, ""));
  }

  lemma TwoOf(a: Hit, b: Hit)
    ensures [a] + ([b] + []) == [a, b]
  {}

  lemma NextHit(s: string, i: nat, h: Hit)
    requires i < |s| && MatchAt(V1, Row, s, i) == Some(h)
    ensures MatchAll(V1, Row, s, i) == [h] + MatchAll(V1, Row, s, h.end)
  {
    hide MatchAt;
  }

  /** The task as the scan reads it off its own text. */
  function TaskOfLine(c: char): TaskSlice {
    TaskAt(V1, Line(c), 0, |Line(c)|, 1, "M1", "")
  }

  lemma TokensOfLine(c: char)
    requires c != '<' && c != ']'
    ensures var t := TaskOfLine(c);
      && t.start == 0 && t.end == 67 && |Line(c)| == 67 && |t.tokens| == 2 && TokensInside(t)
      && t.tokens[0].valueStart == 28 && t.tokens[0].valueEnd == 29
      && t.tokens[1].start == 37 && t.tokens[1].end == 67 && t.tokens[1].valueStart == 59 && t.tokens[1].valueEnd == 59
  {
    hide *;
    TwoHits(c);
    LineIs(c);
    Literals();
    TaskReads(Line(c), Hit(6, 28, 29, 37, ""), Hit(37, 59, 59, 67, ""));
    TaskIs(c);
  }

  lemma TaskIs(c: char)
    ensures TaskOfLine(c) == TaskAt(V1, Line(c), 0, |Line(c)|, 1, "M1", "")
  {}

  lemma TaskReads(s: string, a: Hit, b: Hit)
    requires MatchAll(V1, Row, s, 0) == [a, b] && |V1.close| == 8
    ensures var t := TaskAt(V1, s, 0, |s|, 1, "M1", "");
      && t.start == 0 && t.end == |s| && |t.tokens| == 2 && TokensInside(t)
      && t.tokens[0].valueStart == a.from && t.tokens[0].valueEnd == a.to
      && t.tokens[1].start == b.start && t.tokens[1].end == b.to + 8 && t.tokens[1].valueStart == b.from && t.tokens[1].valueEnd == b.to
  {
    hide MatchAll;
    assert Slice(s, 0, |s|) == s;
    TokensOfTwo(s, a, b);
  }

  lemma TokensOfTwo(s: string, a: Hit, b: Hit)
    ensures RowTokens(V1, s, 0, [a, b], "M1", 1, 0)
      == [TokenOf(V1, s, a, 0, a.start, "M1", Some((1, 0))), TokenOf(V1, s, b, 0, b.start, "M1", Some((1, 1)))]
  {
    hide TokenOf;
    assert [a, b][1..] == [b] && [b][1..] == [];
    assert RowTokens(V1, s, 0, [], "M1", 1, 2) == [];
    assert RowTokens(V1, s, 0, [b], "M1", 1, 1) == [TokenOf(V1, s, b, 0, b.start, "M1", Some((1, 1)))];
  }

  // ----- the row of the second token

  lemma {:induction false} NoItems(s: string, i: nat)
    requires forall k :: i <= k < |s| ==> !StartsAt(s, k, "<li")
    ensures LastItem(s, i).None?
    decreases |s| - i
  {
    hide StartsAt;
    if i < |s| { NoItems(s, i + 1); }
  }

  lemma NotInItem(c: char)
    requires c != '<'
    ensures !InItem(Line(c), 37, 67)
  {
    hide StartsAt, Line;
    var s := Slice(Line(c), 0, 37);
    LineIs(c);
    forall k | 0 <= k < |s| ensures !StartsAt(s, k, "<li") {
      AngleAt(c, k);
      if StartsAt(s, k, "<li") { Second(s, k, "<li"); }
    }
    NoItems(s, 0);
  }

  lemma {:induction false} LastLine(s: string, from: nat, k: nat)
    requires k <= from < |s| && s[k] == '\n' && forall j :: k < j <= from ==> s[j] != '\n'
    ensures LastIndexOf(s, "\n", from) == Some(k)
    decreases from
  {
    OneChar(s, from);
    if from > k { LastLine(s, from - 1, k); }
  }

  lemma {:induction false} NoLastLine(s: string, from: nat)
    requires from < |s| && forall j :: 0 <= j <= from ==> s[j] != '\n'
    ensures LastIndexOf(s, "\n", from).None?
    decreases from
  {
    OneChar(s, from);
    if from > 0 { NoLastLine(s, from - 1); }
  }

  lemma OneChar(s: string, i: nat)
    requires i <= |s|
    ensures StartsAt(s, i, "\n") <==> i < |s| && s[i] == '\n'
  {
    assert "\n"[1..] == "";
  }

  lemma NoLineAtEnd(s: string)
    ensures IndexOf(s, "\n", |s|).None?
  {
    OneChar(s, |s|);
  }

  lemma LineBreaks(c: char, k: nat)
    requires k < 67 && k != 28
    ensures |Line(c)| == 67 && Line(c)[k] != '\n'
  {
    hide *;
    Literals();
    LineIs(c);
  }

  lemma RowBounds(c: char)
    requires c != '<'
    ensures RowStart(Line(c), 37, 67) == (if c == '\n' then 29 else 0) && RowEnd(Line(c), 37, 67) == 67
  {
    hide Line, InItem, StartsAt;
    NotInItem(c);
    LineIs(c);
    forall k | 0 <= k < 67 && k != 28 ensures Line(c)[k] != '\n' { LineBreaks(c, k); }
    NoLineAtEnd(Line(c));
    if c == '\n' { LastLine(Line(c), 37, 28); } else { NoLastLine(Line(c), 37); }
  }

  lemma RowLength(row: string, e: Edit)
    requires e.start <= e.end <= |row|
    ensures |Join(Gaps(row, [], 0))| == |row| && |Join(Gaps(row, [e], 0))| == |row| - (e.end - e.start)
  {
    GapsEnd(row, 0);
    GapsEnd(row, e.end);
    GapsStep(row, [e], 0, 0);
    assert [e][0..] == [e] && [e][1..] == [];
  }

  lemma RowLength2(row: string, e: Edit, f: Edit)
    requires e.start <= e.end <= f.start <= f.end <= |row|
    ensures |Join(Gaps(row, [e, f], 0))| == |row| - (e.end - e.start) - (f.end - f.start)
  {
    GapsStep(row, [e, f], 0, 0);
    GapsStep(row, [e, f], 1, e.end);
    GapsEnd(row, f.end);
    assert [e, f][0..] == [e, f] && [e, f][2..] == [];
  }

  /** The second token's row: everything after the line break, or the whole line less the first value. */
  lemma RowIsLong(c: char)
    requires c != '<' && c != ']'
    ensures var t := TaskOfLine(c); TokensInside(t) && |t.tokens| == 2 && |ChecklistRow(Line(c), t, t.tokens[1])| == if c == '\n' then 38 else 66
  {
    hide RowStart, RowEnd, TaskOfLine, Line, Gaps, Join;
    var s, t := Line(c), TaskOfLine(c);
    TokensOfLine(c);
    RowBounds(c);
    assert Slice(s, 0, 67) == s;
    Spans2(t.tokens, 29);
    Spans2(t.tokens, 0);
    assert t.tokens[1] in t.tokens;
    if c == '\n' { RowLength(Slice(s, 29, 67), Edit(30, 30, "")); } else { RowLength2(Slice(s, 0, 67), Edit(28, 29, ""), Edit(59, 59, "")); }
  }

  lemma Spans2(tokens: seq<Token>, from: nat)
    requires |tokens| == 2 && tokens[0].valueStart == 28 && tokens[0].valueEnd == 29 && tokens[1].valueStart == 59 && tokens[1].valueEnd == 59
    requires from == 29 || from == 0
    ensures RowSpans(tokens, from, 67) == if from == 29 then [Edit(30, 30, "")] else [Edit(28, 29, ""), Edit(59, 59, "")]
  {
    var rest := tokens[1..];
    assert RowSpans(rest[1..], from, 67) == [];
    assert RowSpans(rest, from, 67) == [Edit(59 - from, 59 - from, "")];
  }

  /** Writing `x` over a value that is a line break, through its own span, changes the row that the next token asks for. */
  lemma WritingChangesTheRow()
    ensures Line('x') == Line('\n')[..28] + "x" + Line('\n')[29..]
    ensures var before, after := TaskOfLine('\n'), TaskOfLine('x');
      && TokensInside(before) && TokensInside(after) && |before.tokens| == |after.tokens| == 2
      && ChecklistRow(Line('\n'), before, before.tokens[1]) != ChecklistRow(Line('x'), after, after.tokens[1])
  {
    hide *;
    RowIsLong('\n');
    RowIsLong('x');
    Rewritten();
  }

  lemma Rewritten()
    ensures Line('x') == Line('\n')[..28] + "x" + Line('\n')[29..]
  {
    hide Line;
    LineIs('x');
    LineIs('\n');
  }
}
