/** What a plan ticket asks for: its checklist rows, with the status values taken out. */
module AskedFor {
  import opened Text
  import opened PlanScan
  import opened Holes
  import opened Rescan
  import opened ScanOrder
  import opened Rewrite
  import opened Splice

  // ----- the row around a token

  predicate IsWord(c: char) {
    'a' <= c <= 'z' || 'A' <= c <= 'Z' || '0' <= c <= '9' || c == '_'
  }

  /** An opening list tag at i; its end. */
  function ItemAt(s: string, i: nat): (e: Option<nat>)
    ensures e.Some? ==> i < e.value <= |s|
  {
    if StartsAt(s, i, "<li") && i + 3 < |s| && !IsWord(s[i + 3]) then
      var j := FindChar(s, '>', i + 3);
      if j < |s| then Some(j + 1) else None
    else None
  }

  /** Where the last opening list tag of a left-to-right search starts. */
  function LastItem(s: string, i: nat): (k: Option<nat>)
    ensures k.Some? ==> i <= k.value < |s|
    decreases |s| - i
  {
    if i >= |s| then None
    else
      match ItemAt(s, i)
      case None => LastItem(s, i + 1)
      case Some(e) =>
        match LastItem(s, e)
        case Some(k) => Some(k)
        case None => Some(i)
  }

  predicate InItem(s: string, start: nat, end: nat) {
    var opening, previous := LastItem(Slice(s, 0, start), 0), LastIndexOf(s, "</li>", start);
    opening.Some? && (previous.None? || opening.value > previous.value) && IndexOf(s, "</li>", end).Some?
  }

  function RowStart(s: string, start: nat, end: nat): nat {
    if InItem(s, start, end) then LastItem(Slice(s, 0, start), 0).value
    else match LastIndexOf(s, "\n", start) case None => 0 case Some(k) => k + 1
  }

  function RowEnd(s: string, start: nat, end: nat): nat {
    if InItem(s, start, end) then IndexOf(s, "</li>", end).value + 5
    else match IndexOf(s, "\n", end) case None => |s| case Some(k) => k
  }

  // ----- the row without its values

  /** The spans of a row's tokens inside [from, to), counted from `from`. */
  function RowSpans(tokens: seq<Token>, from: nat, to: nat): seq<Edit> {
    if tokens == [] then []
    else if tokens[0].valueStart >= from && tokens[0].valueStart <= tokens[0].valueEnd <= to
    then [Edit(tokens[0].valueStart - from, tokens[0].valueEnd - from, "")] + RowSpans(tokens[1..], from, to)
    else RowSpans(tokens[1..], from, to)
  }

  /** One row of the ask: the list item or line around the token, less every status value of the task inside it. */
  function ChecklistRow(html: string, task: TaskSlice, k: Token): string
    requires task.start <= k.start && task.start <= k.end
  {
    var slice := Slice(html, task.start, task.end);
    var from, to := RowStart(slice, k.start - task.start, k.end - task.start), RowEnd(slice, k.start - task.start, k.end - task.start);
    Join(Gaps(Slice(slice, from, to), RowSpans(task.tokens, task.start + from, task.start + to), 0))
  }

  ghost predicate TokensInside(task: TaskSlice) {
    forall k :: k in task.tokens ==> task.start <= k.start && task.start <= k.end
  }

  function ChecklistRows(html: string, task: TaskSlice): seq<string>
    requires forall k :: k in task.tokens ==> task.start <= k.start && task.start <= k.end
  {
    seq(|task.tokens|, i requires 0 <= i < |task.tokens| => ChecklistRow(html, task, task.tokens[i]))
  }

  lemma GapsStep(row: string, spans: seq<Edit>, i: nat, cursor: nat)
    requires i < |spans|
    ensures Join(Gaps(row, spans[i..], cursor)) == Slice(row, cursor, spans[i].start) + Join(Gaps(row, spans[i + 1..], spans[i].end))
  {
    var rest := Gaps(row, spans[i + 1..], spans[i].end);
    assert spans[i..][1..] == spans[i + 1..];
    var all := [Slice(row, cursor, spans[i].start)] + rest;
    assert Gaps(row, spans[i..], cursor) == all;
    assert all[1..] == rest;
  }

  lemma GapsEnd(row: string, cursor: nat)
    ensures Join(Gaps(row, [], cursor)) == Slice(row, cursor, |row|)
  {
    assert Gaps(row, [], cursor)[1..] == [];
  }

  /** The source's segment loop: append up to each value, skip it, append the rest. */
  method MaskRow(row: string, spans: seq<Edit>) returns (result: string)
    ensures result == Join(Gaps(row, spans, 0))
  {
    result := "";
    var cursor := 0;
    assert spans[0..] == spans;
    for i := 0 to |spans|
      invariant result + Join(Gaps(row, spans[i..], cursor)) == Join(Gaps(row, spans, 0))
    {
      GapsStep(row, spans, i, cursor);
      result := result + Slice(row, cursor, spans[i].start);
      cursor := spans[i].end;
    }
    assert spans[|spans|..] == [];
    GapsEnd(row, cursor);
    result := result + Slice(row, cursor, |row|);
  }

  // ----- searching through cells

  ghost predicate AfterTagAt(a: seq<Cell>, i: nat)
    requires i < |a|
  {
    a[i].value != "" ==> i >= 2 && a[i - 2].c == '>'
  }

  /** A tag closes two characters before every value. */
  ghost predicate AfterTags(a: seq<Cell>) {
    forall i {:trigger AfterTagAt(a, i)} :: 0 <= i < |a| ==> AfterTagAt(a, i)
  }

  /** Values that cannot disturb a search for tags or line ends either. */
  ghost predicate Quiet(a: seq<Cell>) {
    AfterTags(a) && Free(a, '\n') && Free(a, '<') && Free(a, ']')
  }

  /** Looking for the end of a tag never comes to a value, whatever the value holds. */
  lemma {:induction false} TagEndLift(a: seq<Cell>, t: string, b: string, i: nat)
    requires Written(a, t, b) && AfterTags(a) && 0 < i <= |a| && a[i - 1].c != '>'
    ensures FindChar(t, '>', Char(a, i)) == Char(a, FindChar(b, '>', i))
    decreases |a| - i
  {
    if i < |a| {
      assert ReadsAt(a, t, b, i);
      if a[i].c != '>' {
        if i + 1 < |a| { assert AfterTagAt(a, i + 1); }
        TagEndLift(a, t, b, i + 1);
      }
    }
  }

  lemma InStepLast(a: seq<Cell>, t: string, b: string, i: nat, lit: string)
    requires Written(a, t, b) && Fits(a) && BracketLast(lit) && lit != "" && lit[|lit| - 1] != '[' && StartsAt(b, i, lit)
    ensures i + |lit| <= |a| && Char(a, i + |lit|) == Char(a, i) + |lit|
  {
    LiteralInStep(a, t, b, i, lit);
  }

  lemma ListTagReads(b: string, i: nat)
    requires StartsAt(b, i, "<li")
    ensures i + 3 <= |b| && b[i + 2] == 'i'
  {
    var lit := "<li";
    StartsAtIsPrefix(b, i, lit);
    assert b[i..i + 3][2] == lit[2];
  }

  lemma TagEndFound(a: seq<Cell>, t: string, b: string, i: nat)
    requires Written(a, t, b) && Quiet(a) && i + 3 < |a| && StartsAt(b, i, "<li")
    ensures FindChar(t, '>', Char(a, i + 3)) == Char(a, FindChar(b, '>', i + 3))
  {
    hide FindChar, Free, StartsAt;
    ListTagReads(b, i);
    assert ReadsAt(a, t, b, i + 2);
    TagEndLift(a, t, b, i + 3);
  }

  lemma ItemLift(a: seq<Cell>, t: string, b: string, i: nat)
    requires Written(a, t, b) && Fits(a) && Quiet(a) && i < |a|
    ensures ItemAt(t, Char(a, i)) == (match ItemAt(b, i) case None => None case Some(e) => Some(At(a, e)))
  {
    hide FindChar, FitsAt, Quiet;
    var lit := "<li";
    StartsLift(a, t, b, i, lit);
    if StartsAt(b, i, lit) {
      LiteralInStep(a, t, b, i, lit);
      InStepLast(a, t, b, i, lit);
      if i + 3 < |a| {
        assert ReadsAt(a, t, b, i + 3);
        TagEndFound(a, t, b, i);
        Ordered(a, FindChar(b, '>', i + 3), |a|);
      }
    }
  }

  lemma NoItemInside(s: string, i: nat)
    requires i < |s| && s[i] != '<'
    ensures ItemAt(s, i).None?
  {
    var lit := "<li";
    assert lit[0] == '<';
  }

  lemma {:induction false} SkipToChar(a: seq<Cell>, t: string, b: string, i: nat, q: nat)
    requires Written(a, t, b) && Quiet(a) && i < |a| && At(a, i) <= q <= Char(a, i)
    ensures LastItem(t, q) == LastItem(t, Char(a, i))
    decreases Char(a, i) - q
  {
    if q < Char(a, i) {
      assert ReadsAt(a, t, b, i) && FreeAt(a, '<', i);
      assert t[q] == a[i].value[q - At(a, i)];
      NoItemInside(t, q);
      SkipToChar(a, t, b, i, q + 1);
    }
  }

  lemma {:induction false} LastItemLift(a: seq<Cell>, t: string, b: string, i: nat)
    requires Written(a, t, b) && Fits(a) && Quiet(a) && i <= |a|
    ensures LastItem(t, At(a, i)) == Index(a, LastItem(b, i))
    decreases |a| - i
  {
    hide ItemAt, Quiet, Fits;
    if i < |a| {
      Ordered(a, i, |a|);
      SkipToChar(a, t, b, i, At(a, i));
      ItemLift(a, t, b, i);
      var e := ItemAt(b, i);
      if e.None? {
        LastItemLift(a, t, b, i + 1);
      } else {
        LastItemLift(a, t, b, e.value);
      }
    }
  }

  lemma {:induction false} SkipBack(a: seq<Cell>, t: string, b: string, lit: string, i: nat, q: nat)
    requires Written(a, t, b) && lit != "" && Free(a, lit[0]) && i < |a| && At(a, i) <= q < Char(a, i)
    ensures LastIndexOf(t, lit, q) == if i == 0 then None else LastIndexOf(t, lit, Char(a, i - 1))
    decreases q
  {
    assert ReadsAt(a, t, b, i) && FreeAt(a, lit[0], i);
    assert t[q] == a[i].value[q - At(a, i)];
    if q > At(a, i) { SkipBack(a, t, b, lit, i, q - 1); }
  }

  lemma {:induction false} LastIndexLift(a: seq<Cell>, t: string, b: string, lit: string, i: nat)
    requires Written(a, t, b) && Fits(a) && BracketLast(lit) && lit != "" && Free(a, lit[0]) && i < |a|
    ensures LastIndexOf(t, lit, Char(a, i)) == Index(a, LastIndexOf(b, lit, i))
  {
    StartsLift(a, t, b, i, lit);
    assert ReadsAt(a, t, b, i);
    if !StartsAt(b, i, lit) {
      if Char(a, i) > At(a, i) { SkipBack(a, t, b, lit, i, Char(a, i) - 1); }
      if i > 0 { LastIndexLift(a, t, b, lit, i - 1); }
    }
  }
}
