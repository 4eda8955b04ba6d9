/** A plan of one empty row that two tickets of a proposal name: closing it spoils the plan, and the closure proof refuses it. */
module TwoTickets {
  import opened Text
  import opened PlanScan
  import opened Splice
  import opened Sorting
  import opened ScanOrder
  import opened Rewrite
  import opened ClosureTree
  import opened ClosureDelta
  import opened ClosureExact
  import opened ClosureWrite
  import opened ClosureRows
  import opened ClosureAccepted
  import opened ClosureSafe
  import opened ClosureTwice
  import opened ValueReadsAsTask

  const TASK := "<h4>1."
  const ROW := "<code class=\"status\">["
  const ROW_END := "]</code>"

  /** One milestone, unmarked, with one task of one empty row. */
  function OneRow(): string {
    Heading("") + TASK + ROW + ROW_END
  }

  lemma Literals()
    ensures |TASK| == 6 && TASK[0] == '<' && TASK[1] == 'h' && TASK[2] == '4' && TASK[..4] == "<h4>" && TASK[4] == '1' && TASK[5] == '.'
    ensures forall k :: 1 <= k < 6 ==> TASK[k] != '<'
    ensures |ROW_END| == 8 && ROW_END[0] == ']' && ROW_END[1] == '<' && ROW_END[2] == '/' && ROW_END[3] == 'c'
    ensures forall k :: 0 <= k < 8 && k != 1 ==> ROW_END[k] != '<'
    ensures V1.open == ROW && V1.close == ROW_END && V1.taskOpen == "<h4>"
  {}

  lemma RowIs()
    ensures |ROW| == 22 && ROW[0] == '<' && ROW[1] == 'c' && forall k :: 1 <= k < 22 ==> ROW[k] != '<'
  {}

  /** Where the angle brackets stand, and what follows each. */
  lemma OneRowIs()
    ensures var s := OneRow();
      && |s| == 84 && s[..48] == Heading("") && s[48..54] == TASK && s[54..76] == ROW && s[76..84] == ROW_END
      && (forall k :: 0 <= k < 48 ==> s[k] == Heading("")[k]) && (forall k :: 48 <= k < 54 ==> s[k] == TASK[k - 48])
      && (forall k :: 54 <= k < 76 ==> s[k] == ROW[k - 54]) && (forall k :: 76 <= k < 84 ==> s[k] == ROW_END[k - 76])
  {
    hide *;
    HeadingIs("");
    Literals();
    RowIs();
    OneRowParts();
    Pieces(Heading(""), TASK, ROW + ROW_END);
    Pieces(ROW, "", ROW_END);
    Empties();
  }

  lemma Empties()
    ensures ROW + "" + ROW_END == ROW + ROW_END
  {}

  lemma OneRowParts()
    ensures OneRow() == Heading("") + TASK + (ROW + ROW_END)
  {
    hide Heading;
  }

  /** What can follow an angle bracket of the text. */
  lemma Angles(k: nat)
    requires k < 84
    ensures |OneRow()| == 84 && (OneRow()[k] == '<' ==> k in {0, 4, 27, 48, 54, 77} && k + 2 < 84)
    ensures OneRow()[k] == '<' && k == 0 ==> OneRow()[1] == 'h' && OneRow()[2] == '3'
    ensures OneRow()[k] == '<' && k in {4, 54} ==> OneRow()[k + 1] == 'c'
    ensures OneRow()[k] == '<' && k in {27, 77} ==> OneRow()[k + 2] == 'c'
    ensures OneRow()[k] == '<' && k == 48 ==> OneRow()[49] == 'h' && OneRow()[50] == '4'
  {
    hide *;
    OneRowIs();
    HeadingIs("");
    OnlyTwoAngles();
    OpenIs();
    RestIs();
    Literals();
    RowIs();
  }

  lemma NoSectionEnd(k: nat)
    requires k < 84
    ensures |OneRow()| == 84 && !StartsAt(OneRow(), k, "</section>")
  {
    hide *;
    Angles(k);
    if StartsAt(OneRow(), k, "</section>") { StartsSectionEnd(OneRow(), k); }
  }

  lemma OnlyTask(k: nat)
    requires k < 84 && k != 48
    ensures |OneRow()| == 84 && !StartsAt(OneRow(), k, "<h4>")
  {
    hide *;
    Angles(k);
    if StartsAt(OneRow(), k, "<h4>") { StartsTask(OneRow(), k); }
  }

  lemma StartsHead(s: string, i: nat)
    requires StartsAt(s, i, HEAD_OPEN)
    ensures i + 26 <= |s| && s[i] == '<' && s[i + 1] == 'h' && s[i + 2] == '3'
  {
    hide StartsAt;
    StartsAtIsPrefix(s, i, HEAD_OPEN);
    OnlyTwoAngles();
    assert HEAD_OPEN[0] == '<';
    assert s[i..i + 26][0] == HEAD_OPEN[0] && s[i..i + 26][1] == HEAD_OPEN[1] && s[i..i + 26][2] == HEAD_OPEN[2];
  }

  lemma OnlyHead(k: nat)
    requires 0 < k < 84
    ensures |OneRow()| == 84 && !StartsAt(OneRow(), k, HEAD_OPEN)
  {
    hide *;
    Angles(k);
    if StartsAt(OneRow(), k, HEAD_OPEN) { StartsHead(OneRow(), k); }
  }

  // ----- the scan, pattern by pattern

  lemma {:induction false} SkipHeads(s: string, i: nat)
    requires i <= |s| && forall k :: i <= k < |s| ==> !StartsAt(s, k, HEAD_OPEN)
    ensures MatchAll(V1, Head, s, i) == []
    decreases |s| - i
  {
    hide StartsAt;
    OpenIs();
    if i < |s| { SkipHeads(s, i + 1); }
  }

  lemma OneHead()
    ensures MatchAll(V1, Head, OneRow(), 0) == [Hit(0, 26, 26, 48, "M1")]
  {
    hide *;
    var s := OneRow();
    OneRowIs();
    HeadingIs("");
    OpenIs();
    RestIs();
    NotDigit();
    Begins(s, 0, HEAD_OPEN);
    assert s[..48][26..46] == s[26..46];
    Begins(s, 26, HEAD_REST);
    FindsAt(s, 26, 26);
    OneDigit(s, 46);
    BracketedIs(s, 26);
    HeadHit(s);
    forall k | 48 <= k < 84 ensures !StartsAt(s, k, HEAD_OPEN) { OnlyHead(k); }
    SkipHeads(s, 48);
    HeadOnly(s);
  }

  lemma HeadHit(s: string)
    requires V1.headTag + V1.open == HEAD_OPEN && V1.headMid == HEAD_REST && |HEAD_OPEN| == 26 && |HEAD_REST| == 20 && |s| == 84
    requires Bracketed(s, 0, HEAD_OPEN, HEAD_REST) == Some(26) && Digits(s, 46) == "1" && s[47] == ':'
    ensures MatchHead(V1, s, 0) == Some(Hit(0, 26, 26, 48, "M1"))
  {
    hide Bracketed, Digits;
    assert "M" + "1" == "M1";
  }

  lemma HeadOnly(s: string)
    requires |s| == 84 && MatchHead(V1, s, 0) == Some(Hit(0, 26, 26, 48, "M1")) && MatchAll(V1, Head, s, 48) == []
    ensures MatchAll(V1, Head, s, 0) == [Hit(0, 26, 26, 48, "M1")]
  {
    hide MatchHead;
  }

  lemma OneTaskHead()
    ensures MatchAll(V1, Task, OneRow(), 0) == [Hit(48, 52, 53, 54, "1")]
  {
    hide *;
    var s := OneRow();
    OneRowIs();
    Literals();
    RowIs();
    NotDigit();
    forall k | 0 <= k < 84 && k != 48 ensures !StartsAt(s, k, "<h4>") { OnlyTask(k); }
    SkipTasks(s, 0, 48);
    SkipTasks(s, 54, |s|);
    NothingLeft(s, Task);
    assert s[48..54][..4] == s[48..52];
    Begins(s, 48, "<h4>");
    OneDigit(s, 52);
    TaskHit(s);
  }

  lemma TaskHit(s: string)
    requires |s| == 84 && StartsAt(s, 48, "<h4>") && Digits(s, 52) == "1" && s[53] == '.' && MatchAll(V1, Task, s, 54) == []
    requires MatchAll(V1, Task, s, 0) == MatchAll(V1, Task, s, 48)
    ensures MatchAll(V1, Task, s, 0) == [Hit(48, 52, 53, 54, "1")]
  {
    hide StartsAt, Digits;
    assert MatchTask(V1, s, 48) == Some(Hit(48, 52, 53, 54, "1"));
  }

  // ----- the row, in the task's own slice

  function Slice1(): string {
    TASK + ROW + ROW_END
  }

  lemma SliceIs()
    ensures var s := Slice1();
      && |s| == 36 && s[6..28] == ROW && s[28..36] == ROW_END
      && (forall k :: 0 <= k < 6 ==> s[k] == TASK[k]) && (forall k :: 6 <= k < 28 ==> s[k] == ROW[k - 6])
      && (forall k :: 28 <= k < 36 ==> s[k] == ROW_END[k - 28])
    ensures Slice(OneRow(), 48, 84) == Slice1()
  {
    hide *;
    Literals();
    RowIs();
    SliceParts();
    Pieces(TASK, ROW, ROW_END);
    OneRowIs();
    HeadingIs("");
    OneRowParts();
    SliceOfOneRow();
  }

  lemma SliceParts()
    ensures Slice1() == TASK + ROW + ROW_END
  {}

  lemma SliceOfOneRow()
    requires |OneRow()| == 84 && |Heading("")| == 48 && OneRow() == Heading("") + TASK + (ROW + ROW_END)
    ensures Slice(OneRow(), 48, 84) == Slice1()
  {
    hide Heading, OneRow;
    assert OneRow() == Heading("") + (TASK + ROW + ROW_END);
  }

  lemma StartsRow(s: string, i: nat)
    requires StartsAt(s, i, ROW)
    ensures i + 22 <= |s| && s[i] == '<' && s[i + 1] == 'c'
  {
    hide StartsAt;
    StartsAtIsPrefix(s, i, ROW);
    RowIs();
    assert s[i..i + 22][0] == ROW[0] && s[i..i + 22][1] == ROW[1];
  }

  lemma {:induction false} SkipRows(s: string, i: nat, j: nat)
    requires i <= j <= |s| && forall k :: i <= k < j ==> !StartsAt(s, k, ROW)
    ensures MatchAll(V1, Row, s, i) == MatchAll(V1, Row, s, j)
    decreases j - i
  {
    hide StartsAt;
    Literals();
    if i < j { SkipRows(s, i + 1, j); }
  }

  lemma OneRowHit()
    ensures MatchAll(V1, Row, Slice1(), 0) == [Hit(6, 28, 28, 36, "")]
  {
    hide *;
    var s := Slice1();
    SliceIs();
    Literals();
    RowIs();
    forall k | 0 <= k < 36 && k != 6 ensures !StartsAt(s, k, ROW) {
      if StartsAt(s, k, ROW) { StartsRow(s, k); }
    }
    SkipRows(s, 0, 6);
    NothingLeft(s, Row);
    Begins(s, 6, ROW);
    Begins(s, 28, ROW_END);
    FindsAt(s, 28, 28);
    RowHit(s);
  }

  lemma RowHit(s: string)
    requires |s| == 36 && |ROW| == 22 && |ROW_END| == 8 && V1.open == ROW && V1.close == ROW_END
    requires StartsAt(s, 6, ROW) && StartsAt(s, 28, ROW_END) && FindChar(s, ']', 28) == 28
    requires MatchAll(V1, Row, s, 36) == [] && MatchAll(V1, Row, s, 0) == MatchAll(V1, Row, s, 6)
    ensures MatchAll(V1, Row, s, 0) == [Hit(6, 28, 28, 36, "")]
  {
    hide StartsAt, FindChar;
    assert MatchRow(V1, s, 6) == Some(Hit(6, 28, 28, 36, ""));
  }

  // ----- the plan

  function RowToken(): Token {
    Token(54, 84, 76, 76, "", "M1", Some((1, 0)))
  }

  function HeadOf(): Token {
    Token(4, 34, 26, 26, "", "M1", None)
  }

  function OneTaskSlice(): TaskSlice {
    TaskSlice(1, "M1", "", 48, 84, [RowToken()])
  }

  lemma RowTokenIs()
    requires |OneRow()| == 84 && |V1.close| == 8
    ensures RowTokens(V1, OneRow(), 48, [Hit(6, 28, 28, 36, "")], "M1", 1, 0) == [RowToken()]
  {
    hide OneRow;
    var hits := [Hit(6, 28, 28, 36, "")];
    assert hits[1..] == [];
  }

  lemma HeadTokenIs()
    requires |OneRow()| == 84 && |V1.close| == 8 && |V1.headTag| == 4
    ensures HeadToken(V1, OneRow(), Hit(0, 26, 26, 48, "M1")) == HeadOf()
  {
    hide OneRow;
  }

  lemma NumberOne()
    ensures NumberOf("1") == 1
  {
    assert "1"[..0] == "";
  }

  lemma TaskIs()
    ensures Tasks(V1, OneRow(), 0, 84, [Hit(48, 52, 53, 54, "1")], "M1", "") == [OneTaskSlice()]
  {
    hide *;
    OneRowIs();
    Literals();
    OneRowHit();
    SliceIs();
    RowTokenIs();
    NumberOne();
    OnlyTaskOf(OneRow());
  }

  lemma OnlyTaskOf(s: string)
    requires NumberOf("1") == 1 && MatchAll(V1, Row, Slice(s, 48, 84), 0) == [Hit(6, 28, 28, 36, "")]
    requires RowTokens(V1, s, 48, [Hit(6, 28, 28, 36, "")], "M1", 1, 0) == [RowToken()]
    ensures Tasks(V1, s, 0, 84, [Hit(48, 52, 53, 54, "1")], "M1", "") == [OneTaskSlice()]
  {
    hide MatchAll, RowTokens, Slice, NumberOf;
    var heads := [Hit(48, 52, 53, 54, "1")];
    assert heads[1..] == [];
    assert TaskOf(V1, s, 0, 84, heads, "M1", "") == OneTaskSlice();
  }

  lemma OneRowScan()
    ensures Scan(V1, OneRow()) == [Section(HeadOf(), [OneTaskSlice()])]
  {
    hide *;
    var s, h := OneRow(), Hit(0, 26, 26, 48, "M1");
    OneRowIs();
    Literals();
    OneHead();
    OneTaskHead();
    TagLength();
    HeadTokenIs();
    TaskIs();
    forall k | 0 <= k < |s| ensures !StartsAt(s, k, "</section>") { NoSectionEnd(k); }
    NoSectionFrom(s, 0);
    SectionsOne(s, h);
    SectionTasks(s, h);
    SectionIs(s, h);
    HeadParts();
  }

  lemma TagLength()
    ensures |V1.headTag| == 4
  {}

  lemma HeadParts()
    ensures HeadOf().milestone == "M1" && HeadOf().value == ""
  {}

  lemma SectionIs(s: string, h: Hit)
    requires MatchAll(V1, Head, s, 0) == [h]
    requires Sections(V1, s, [h]) == [SectionOf(V1, s, [h])]
    ensures Scan(V1, s) == [Section(HeadToken(V1, s, h), SectionOf(V1, s, [h]).tasks)]
  {
    hide MatchAll, Sections, HeadToken, Tasks, BlockEnd;
  }

  lemma OneRowReads()
    ensures Tokens(Scan(V1, OneRow())) == [HeadOf(), RowToken()] && AllTasks(Scan(V1, OneRow())) == [OneTaskSlice()]
    ensures Readable(V1, OneRow())
  {
    hide OneRow, Scan;
    OneRowScan();
    V1IsSound();
    V1IsSeparate();
    var sections := [Section(HeadOf(), [OneTaskSlice()])];
    assert sections[1..] == [] && [OneTaskSlice()][1..] == [];
    assert TaskTokens([OneTaskSlice()]) == [RowToken()];
    assert Tokens(sections) == [HeadOf()] + [RowToken()] + [];
    assert AllTasks(sections) == [OneTaskSlice()] + [];
  }

  // ----- proposing and closing both tickets

  /** The plan is registered, and both tickets' files read and name them. */
  ghost predicate Stored(c: Context, before: Tree, source: PlanSource) {
    && c.g == V1 && FindSource(c.registry.plans, source.planLabel) == Some(source)
    && TreeText(before, source.planPath) == Some(OneRow())
    && TicketReads(c, before, source, "T01") && TicketReads(c, before, source, "W01")
  }

  lemma Numbers()
    ensures TicketNumber("T01") == Some(1) && TicketNumber("W01") == Some(1) && "T01" != "W01"
  {
    assert "T01"[1..] == "01" && "W01"[1..] == "01" && "T01"[0] != "W01"[0];
    assert "01"[..1] == "0" && "0"[..0] == "";
    TwoDigits("T01");
    TwoDigits("W01");
  }

  lemma TwoDigits(id: string)
    requires |id| == 3 && id[1] == '0' && id[2] == '1'
    ensures Digits(id, 1) == id[1..]
  {
    assert Digits(id, 3) == "" && Digits(id, 2) == [id[2]] + "";
  }

  function EmptyRow(source: PlanSource, ticket: string): ClosureRow {
    ClosureRow(source.planPath, ticket, 1, 0, "")
  }

  function Both(source: PlanSource): Proposal {
    Proposal(source.planLabel, ["T01", "W01"], [EmptyRow(source, "T01"), EmptyRow(source, "W01")], [])
  }

  lemma OneNumbered()
    ensures Numbered([OneTaskSlice()], 1) == [OneTaskSlice()]
  {
    assert [OneTaskSlice()][1..] == [];
  }

  lemma KeptBoth()
    ensures Kept(["T01", "W01"], None, true) == ["T01", "W01"] && Kept(["T01", "W01"], None, false) == []
  {
    assert ["T01", "W01"][1..] == ["W01"] && ["W01"][1..] == [];
    assert Kept(["W01"], None, true) == ["W01"] && Kept(["W01"], None, false) == [];
  }

  lemma RowsOfOne(source: PlanSource, ticket: string)
    ensures RowsOf(source.planPath, ticket, 1, OneTaskSlice().tokens) == [EmptyRow(source, ticket)]
  {
    assert [RowToken()][1..] == [];
  }

  /** Both tickets resolve, so both are proposed, with the same one row. */
  lemma BothProposed(c: Context, before: Tree, source: PlanSource)
    requires Stored(c, before, source)
    ensures Propose(c, before, source.planLabel, ["T01", "W01"], None) == Some(Both(source))
  {
    hide OneRow, Scan, Tokens, AllTasks, TicketReads, ProposedRows, TreeText, Kept;
    OneRowReads();
    KeptBoth();
    BothRows(c, before, source);
  }

  lemma OneTicket(c: Context, before: Tree, source: PlanSource, id: string, ids: seq<string>, rest: seq<ClosureRow>)
    requires TicketReads(c, before, source, id) && TicketNumber(id) == Some(1)
    requires ProposedRows(c, before, source, [OneTaskSlice()], ids) == Some(rest)
    ensures ProposedRows(c, before, source, [OneTaskSlice()], [id] + ids) == Some([EmptyRow(source, id)] + rest)
  {
    hide TicketReads, Numbered, RowsOf, TicketNumber;
    OneNumbered();
    RowsOfOne(source, id);
    assert ([id] + ids)[1..] == ids;
  }

  lemma BothRows(c: Context, before: Tree, source: PlanSource)
    requires TicketReads(c, before, source, "T01") && TicketReads(c, before, source, "W01")
    ensures ProposedRows(c, before, source, [OneTaskSlice()], ["T01", "W01"]) == Some(Both(source).rows)
  {
    hide TicketReads, TicketNumber;
    Numbers();
    OneTicket(c, before, source, "W01", [], []);
    assert ["W01"] + [] == ["W01"] && [EmptyRow(source, "W01")] + [] == [EmptyRow(source, "W01")];
    OneTicket(c, before, source, "T01", ["W01"], [EmptyRow(source, "W01")]);
    assert ["T01"] + ["W01"] == ["T01", "W01"];
    assert [EmptyRow(source, "T01")] + [EmptyRow(source, "W01")] == Both(source).rows;
  }

  lemma BothNameOne(source: PlanSource)
    ensures NameOne(Both(source).rows, AllTasks(Scan(V1, OneRow())), RowToken())
  {
    hide OneRow, Scan, AllTasks, Tokens;
    OneRowReads();
    OneNumbered();
  }

  lemma StillOneTask(c: Context, source: PlanSource, closed: set<ClosureRow>)
    requires c.g == V1 && EmptyRow(source, "T01") in closed && EmptyRow(source, "W01") in closed
    ensures Numbered(AllTasks(Scan(V1, Rowed(c, OneRow(), Both(source), closed))), 1) != []
  {
    hide OneRow, Scan, AllTasks, Tokens, Rowed, Numbered, Restated, Readable;
    OneRowReads();
    OneNumbered();
    BothNameOne(source);
    EmptyDoubles(c, OneRow(), Both(source), RowToken(), closed);
    DoubledIsPlain();
    OnlyPlain(V1, OneRow(), RowToken(), "xx");
    ScanAfterWriting(V1, OneRow(), Only(RowToken(), "xx"));
    SameAllTasks(Scan(V1, OneRow()), Scan(V1, Rowed(c, OneRow(), Both(source), closed)), Only(RowToken(), "xx"));
    SameNumbered(AllTasks(Scan(V1, OneRow())), AllTasks(Scan(V1, Rowed(c, OneRow(), Both(source), closed))), Only(RowToken(), "xx"), 1);
  }

  lemma {:induction false} AllWritten(c: Context, source: PlanSource, before: Tree, after: Tree, tasks: seq<TaskSlice>, ids: seq<string>)
    requires forall id :: id in ids ==> TicketReads(c, before, source, id) && TicketNumber(id).Some? && Numbered(tasks, TicketNumber(id).value) != []
    ensures TicketWrites(c, source, before, after, tasks, ids).Some?
    decreases |ids|
  {
    hide Numbered, TicketNumber, TreeText, PutState, StateFor;
    if ids != [] {
      var id := ids[0];
      assert id in ids;
      forall x | x in ids[1..] ensures x in ids {}
      var path, text := TicketPath(source, id), TreeText(before, TicketPath(source, id)).value;
      var state := StateFor(Numbered(tasks, TicketNumber(id).value)[0]);
      AllWritten(c, source, before, after[path := Utf8(PutState(text, c.read(text, false).value, state))], tasks, ids[1..]);
    }
  }

  lemma BothWritten(c: Context, before: Tree, source: PlanSource, tasks: seq<TaskSlice>)
    requires TicketReads(c, before, source, "T01") && TicketReads(c, before, source, "W01") && Numbered(tasks, 1) != []
    ensures TicketWrites(c, source, before, before, tasks, ["T01", "W01"]).Some?
  {
    hide Numbered, TicketNumber, TreeText, TicketReads, TicketWrites;
    Numbers();
    AllWritten(c, source, before, before, tasks, ["T01", "W01"]);
  }

  /** What the writer leaves at the plan's path. */
  lemma BothApplied(c: Context, before: Tree, source: PlanSource, closed: set<ClosureRow>)
    requires Stored(c, before, source) && EmptyRow(source, "T01") in closed && EmptyRow(source, "W01") in closed
    ensures var r := Applied(c, before, Both(source), closed);
      r.Some? && source.planPath in r.value && r.value[source.planPath] == Utf8(Final(c, OneRow(), Both(source), closed))
  {
    hide OneRow, Scan, AllTasks, Numbered, TicketReads, TicketWrites, MarkerEdits, PutAll, RowEdits, Milestones, Touched, Sort;
    BothNameOne(source);
    TwoEdits(Both(source).rows, AllTasks(Scan(V1, OneRow())), RowToken(), closed);
    StillOneTask(c, source, closed);
    BothWritten(c, before, source, AllTasks(Scan(V1, Rowed(c, OneRow(), Both(source), closed))));
  }

  /**
   For any tree holding this plan and both tickets: proposing T01 and W01 and closing every row proposed, the writer
   produces a tree, and the closure proof refuses it.
  */
  lemma TwoTicketsSpoil(c: Context, before: Tree, source: PlanSource, modes: Option<Modes>, paths: seq<string>)
    requires Stored(c, before, source)
    requires var p := Propose(c, before, source.planLabel, ["T01", "W01"], None);
      p.Some? ==> var after := Applied(c, before, p.value, set r | r in p.value.rows);
      after.Some? ==> forall path :: path in paths <==> path in before.Keys + after.value.Keys
    ensures var p := Propose(c, before, source.planLabel, ["T01", "W01"], None);
      && p == Some(Both(source)) && Applied(c, before, p.value, set r | r in p.value.rows).Some?
      && Delta(c, before, Applied(c, before, p.value, set r | r in p.value.rows).value, modes, paths).Refused?
  {
    hide OneRow, Scan, Tokens, AllTasks, Propose, Applied, Delta, Final, Readable, Check, NameOne, TreeText, TextCheck, FindSource;
    BothProposed(c, before, source);
    var p := Both(source);
    var closed := set r | r in p.rows;
    assert p.rows[0] in closed && p.rows[1] in closed;
    BothApplied(c, before, source, closed);
    var after := Applied(c, before, p, closed).value;
    OneRowReads();
    BothNameOne(source);
    Registers(c, before, source);
    DoubledIsRefused(c, source.planPath, OneRow(), p, 1, closed);
    DeltaIff(c, before, after, modes, paths);
    PlanBad(c, before, after, source.planPath, OneRow(), Final(c, OneRow(), p, closed));
  }

  lemma Registers(c: Context, before: Tree, source: PlanSource)
    requires Stored(c, before, source)
    ensures IsPlan(c.registry, source.planPath) && source.planPath in before && before[source.planPath] == Utf8(OneRow())
  {
    hide OneRow;
    FoundSource(c.registry.plans, source.planLabel);
  }

  lemma PlanBad(c: Context, before: Tree, after: Tree, path: string, left: string, right: string)
    requires path in before && path in after && before[path] == Utf8(left) && after[path] == Utf8(right) && left != right
    requires !TextCheck(c, path, left, right).Fine?
    ensures !Check(c, before, after, path).Fine?
  {
    hide TextCheck;
  }
}
