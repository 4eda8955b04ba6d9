/** Taking the Handoff sections out of a ticket body, headings inside code fences left alone. */
module Handoffs {
  import opened Text

  datatype Fence = Fence(mark: char, length: nat)

  // ----- lines

  /** Lines with their newlines; only the last may lack one. */
  function Lines(s: string): seq<string>
    decreases |s|
  {
    if s == "" then []
    else
      var k := FindChar(s, '\n', 0);
      if k < |s| then [s[..k + 1]] + Lines(s[k + 1..]) else [s]
  }

  predicate Full(line: string) {
    line != "" && line[|line| - 1] == '\n' && '\n' !in line[..|line| - 1]
  }

  predicate AllFull(lines: seq<string>) {
    forall i :: 0 <= i < |lines| ==> Full(lines[i])
  }

  predicate Lined(lines: seq<string>) {
    lines == [] || (AllFull(lines[..|lines| - 1]) && (Full(lines[|lines| - 1]) || (lines[|lines| - 1] != "" && '\n' !in lines[|lines| - 1])))
  }

  function Joined(lines: seq<string>): string {
    if lines == [] then "" else Joined(lines[..|lines| - 1]) + lines[|lines| - 1]
  }

  // ----- what one line is

  predicate IsSpace(c: char) {
    || c == ' ' || '\t' <= c <= '\r' || c == '\U{A0}' || c == '\U{1680}' || '\U{2000}' <= c <= '\U{200A}'
    || c == '\U{2028}' || c == '\U{2029}' || c == '\U{202F}' || c == '\U{205F}' || c == '\U{3000}' || c == '\U{FEFF}'
  }

  /** How many times c stands from i on. */
  function RunOf(s: string, i: nat, c: char): (n: nat)
    ensures i <= |s| ==> i + n <= |s|
    decreases |s| - i
  {
    if i < |s| && s[i] == c then 1 + RunOf(s, i + 1, c) else 0
  }

  /** A fence line: at most three spaces, then three or more of one fence character. */
  function Marker(line: string): Option<Fence> {
    var k := RunOf(line, 0, ' ');
    if k <= 3 && k < |line| && (line[k] == '`' || line[k] == '~') && RunOf(line, k, line[k]) >= 3
    then Some(Fence(line[k], RunOf(line, k, line[k])))
    else None
  }

  /** Nothing but white space after the fence characters. */
  predicate Bare(line: string) {
    var k := RunOf(line, 0, ' ');
    k < |line| && forall i :: k + RunOf(line, k, line[k]) <= i < |line| ==> IsSpace(line[i])
  }

  predicate IsHeading(line: string) {
    StartsAt(line, 0, "# ") || StartsAt(line, 0, "## ")
  }

  predicate IsHandoff(line: string) {
    line == "## Handoff\n" || line == "## Handoff\r\n" || line == "## Handoff"
  }

  predicate IsBlank(line: string) {
    line == "\n" || line == "\r\n"
  }

  function NextFence(fence: Option<Fence>, line: string): Option<Fence> {
    match Marker(line)
    case None => fence
    case Some(m) =>
      if fence.None? then Some(m)
      else if m.mark == fence.value.mark && m.length >= fence.value.length && Bare(line) then None
      else fence
  }

  // ----- the walk over the lines

  datatype State = State(kept: seq<string>, fence: Option<Fence>, handoff: bool)

  function DropBlanks(kept: seq<string>): (k: seq<string>)
    ensures k <= kept
  {
    if kept != [] && IsBlank(kept[|kept| - 1]) then DropBlanks(kept[..|kept| - 1]) else kept
  }

  function Separator(line: string): string {
    if |line| >= 2 && line[|line| - 2] == '\r' && line[|line| - 1] == '\n' then "\r\n" else "\n"
  }

  function Step(st: State, line: string): State {
    if Marker(line).Some? then State(if st.handoff then st.kept else st.kept + [line], NextFence(st.fence, line), st.handoff)
    else if st.fence.None? && IsHeading(line) then
      if IsHandoff(line) then State(DropBlanks(st.kept), st.fence, true)
      else State((if st.handoff && st.kept != [] then st.kept + [Separator(line)] else st.kept) + [line], st.fence, false)
    else State(if st.handoff then st.kept else st.kept + [line], st.fence, st.handoff)
  }

  function Walk(st: State, lines: seq<string>): State {
    if lines == [] then st else Step(Walk(st, lines[..|lines| - 1]), lines[|lines| - 1])
  }

  const Start: State := State([], None, false)

  function WithoutHandoffs(body: string): string {
    Joined(Walk(Start, Lines(body)).kept)
  }

  lemma {:induction false} WalkAppend(st: State, a: seq<string>, b: seq<string>)
    ensures Walk(st, a + b) == Walk(Walk(st, a), b)
  {
    hide Step;
    if b == [] {
      assert a + b == a;
    } else {
      var n := |b| - 1;
      WalkAppend(st, a, b[..n]);
      assert (a + b)[..|a + b| - 1] == a + b[..n];
    }
  }

  // ----- fences and sections, read from the lines alone

  /** The open fence after the lines. */
  function FenceAfter(lines: seq<string>): Option<Fence> {
    if lines == [] then None else NextFence(FenceAfter(lines[..|lines| - 1]), lines[|lines| - 1])
  }

  /** The last line is a heading of the document: it stands outside every fence. */
  predicate EndsInHeading(lines: seq<string>) {
    lines != [] && FenceAfter(lines[..|lines| - 1]).None? && IsHeading(lines[|lines| - 1])
  }

  /** The last line belongs to a Handoff section: the nearest document heading at or above it is a Handoff heading. */
  predicate InHandoff(lines: seq<string>) {
    lines != [] && if EndsInHeading(lines) then IsHandoff(lines[|lines| - 1]) else InHandoff(lines[..|lines| - 1])
  }

  /** The lines outside every Handoff section. */
  function Outside(lines: seq<string>): seq<string> {
    if lines == [] then [] else Outside(lines[..|lines| - 1]) + (if InHandoff(lines) then [] else [lines[|lines| - 1]])
  }

  function Visible(lines: seq<string>): seq<string> {
    if lines == [] then [] else Visible(lines[..|lines| - 1]) + (if IsBlank(lines[|lines| - 1]) then [] else [lines[|lines| - 1]])
  }

  lemma HeadingIsNoMarker(line: string)
    requires IsHeading(line)
    ensures Marker(line).None? && !IsBlank(line)
  {
    assert line[0] == '#';
  }

  lemma {:induction false} WalkReads(lines: seq<string>)
    ensures Walk(Start, lines).fence == FenceAfter(lines) && Walk(Start, lines).handoff == InHandoff(lines)
  {
    hide Marker, IsHeading, IsHandoff, DropBlanks, Separator, Bare;
    if lines != [] {
      var n := |lines| - 1;
      WalkReads(lines[..n]);
      if IsHeading(lines[n]) { HeadingIsNoMarker(lines[n]); }
    }
  }

  lemma VisibleStep(lines: seq<string>, line: string)
    ensures Visible(lines + [line]) == Visible(lines) + (if IsBlank(line) then [] else [line])
  {
    assert (lines + [line])[..|lines|] == lines;
  }

  lemma {:induction false} DroppedAreBlank(kept: seq<string>)
    ensures Visible(DropBlanks(kept)) == Visible(kept)
  {
    hide IsBlank;
    if kept != [] && IsBlank(kept[|kept| - 1]) { DroppedAreBlank(kept[..|kept| - 1]); }
  }

  lemma SeparatorIsBlank(line: string)
    ensures IsBlank(Separator(line)) && Full(Separator(line))
  {}

  lemma StepKeeps(st: State, line: string)
    ensures Visible(Step(st, line).kept) == Visible(st.kept) + (if Step(st, line).handoff || IsBlank(line) then [] else [line])
  {
    hide Marker, IsHeading, IsHandoff, IsBlank, Separator, NextFence, Visible, DropBlanks;
    VisibleStep(st.kept, line);
    VisibleStep(st.kept, Separator(line));
    VisibleStep(st.kept + [Separator(line)], line);
    SeparatorIsBlank(line);
    DroppedAreBlank(st.kept);
  }

  /** Exactly the Handoff sections go: of the rest every line with text stays, in order, and none is added. */
  lemma {:induction false} OnlyHandoffsGo(lines: seq<string>)
    ensures Visible(Walk(Start, lines).kept) == Visible(Outside(lines))
  {
    hide Step, IsBlank, InHandoff, FenceAfter;
    if lines != [] {
      var n := |lines| - 1;
      OnlyHandoffsGo(lines[..n]);
      StepKeeps(Walk(Start, lines[..n]), lines[n]);
      WalkReads(lines);
      VisibleStep(Outside(lines[..n]), lines[n]);
      assert Outside(lines[..n]) + [] == Outside(lines[..n]) && Visible(Outside(lines[..n])) + [] == Visible(Outside(lines[..n]));
    }
  }

  // ----- doing it twice

  /** No Handoff heading of the document stands in the lines. */
  ghost predicate Clean(lines: seq<string>) {
    lines == [] || (Clean(lines[..|lines| - 1]) && !(EndsInHeading(lines) && IsHandoff(lines[|lines| - 1])))
  }

  lemma CleanStep(lines: seq<string>, line: string)
    ensures Clean(lines + [line]) <==> Clean(lines) && !(FenceAfter(lines).None? && IsHeading(line) && IsHandoff(line))
    ensures FenceAfter(lines + [line]) == NextFence(FenceAfter(lines), line)
  {
    hide IsHeading, IsHandoff, NextFence;
    assert (lines + [line])[..|lines|] == lines;
  }

  lemma {:induction false} CleanStays(lines: seq<string>)
    requires Clean(lines)
    ensures Walk(Start, lines) == State(lines, FenceAfter(lines), false)
  {
    hide Marker, IsHeading, IsHandoff, DropBlanks, Separator, Bare;
    if lines != [] {
      var n := |lines| - 1;
      CleanStays(lines[..n]);
      assert lines[..n] + [lines[n]] == lines;
      if IsHeading(lines[n]) { HeadingIsNoMarker(lines[n]); }
    }
  }

  lemma BlankIsPlain(line: string)
    requires IsBlank(line)
    ensures Marker(line).None? && !IsHeading(line)
  {}

  lemma {:induction false} DropKeepsClean(kept: seq<string>)
    requires Clean(kept) && FenceAfter(kept).None?
    ensures Clean(DropBlanks(kept)) && FenceAfter(DropBlanks(kept)).None?
  {
    hide IsBlank, Marker, IsHeading, IsHandoff, Bare;
    if kept != [] && IsBlank(kept[|kept| - 1]) {
      BlankIsPlain(kept[|kept| - 1]);
      DropKeepsClean(kept[..|kept| - 1]);
    }
  }

  /** What has been kept is clean, and ends in the same fence as what was read, or in none inside a Handoff section. */
  ghost predicate Tidy(st: State) {
    && Clean(st.kept)
    && FenceAfter(st.kept) == if st.handoff then None else st.fence
  }

  lemma StepIsTidy(st: State, line: string)
    requires Tidy(st)
    ensures Tidy(Step(st, line))
  {
    hide Marker, IsHeading, IsHandoff, Separator, Bare, Clean, FenceAfter, DropBlanks;
    CleanStep(st.kept, line);
    CleanStep(st.kept, Separator(line));
    CleanStep(st.kept + [Separator(line)], line);
    SeparatorIsBlank(line);
    BlankIsPlain(Separator(line));
    if IsHeading(line) { HeadingIsNoMarker(line); }
    if FenceAfter(st.kept).None? { DropKeepsClean(st.kept); }
  }

  lemma {:induction false} WalkIsTidy(lines: seq<string>)
    ensures Tidy(Walk(Start, lines))
  {
    hide Step, Tidy;
    if lines == [] {
      StartIsTidy();
    } else {
      WalkIsTidy(lines[..|lines| - 1]);
      StepIsTidy(Walk(Start, lines[..|lines| - 1]), lines[|lines| - 1]);
    }
  }

  lemma StartIsTidy()
    ensures Tidy(Start)
  {}

  // ----- lines and text

  lemma JoinedMore(lines: seq<string>, last: string)
    ensures Joined(lines + [last]) == Joined(lines) + last && Joined([]) == ""
  {
    assert (lines + [last])[..|lines|] == lines;
  }

  lemma Reassociated(x: string, y: string, z: string)
    ensures (x + y) + z == x + (y + z) && x + "" == x && "" + x == x
  {}

  lemma {:induction false} JoinedCons(x: string, rest: seq<string>)
    ensures Joined([x] + rest) == x + Joined(rest)
  {
    hide *;
    if rest == [] {
      JoinedMore([], x);
      Reassociated(x, "", "");
      assert [] + [x] == [x] && [x] + rest == [x];
    } else {
      var n := |rest| - 1;
      var init, last := rest[..n], rest[n];
      JoinedCons(x, init);
      assert rest == init + [last] && [x] + rest == ([x] + init) + [last];
      JoinedMore([x] + init, last);
      JoinedMore(init, last);
      Reassociated(x, Joined(init), last);
    }
  }

  lemma {:induction false} JoinedAppend(a: seq<string>, b: seq<string>)
    ensures Joined(a + b) == Joined(a) + Joined(b)
  {
    if b == [] {
      assert a + b == a;
    } else {
      var n := |b| - 1;
      JoinedAppend(a, b[..n]);
      assert (a + b)[..|a + b| - 1] == a + b[..n];
    }
  }

  lemma {:induction false} FindsNewline(line: string, rest: string, i: nat)
    requires Full(line) && i < |line|
    ensures FindChar(line + rest, '\n', i) == |line| - 1
    decreases |line| - i
  {
    if i < |line| - 1 {
      assert line[i] == line[..|line| - 1][i];
      FindsNewline(line, rest, i + 1);
    }
  }

  lemma {:induction false} FindsNone(s: string, c: char, i: nat)
    requires c !in s && i <= |s|
    ensures FindChar(s, c, i) == |s|
    decreases |s| - i
  {
    if i < |s| { FindsNone(s, c, i + 1); }
  }

  lemma LinedTail(lines: seq<string>)
    requires Lined(lines) && lines != []
    ensures Lined(lines[1..]) && (Full(lines[0]) || (|lines| == 1 && lines[0] != "" && '\n' !in lines[0]))
  {
    hide Full;
    var n := |lines| - 1;
    if n > 0 {
      assert lines[..n][0] == lines[0];
      assert lines[1..][..n - 1] == lines[..n][1..];
    }
  }

  /** Lines splits what joining put together. */
  lemma {:induction false} LinesOfJoined(lines: seq<string>)
    requires Lined(lines)
    ensures Lines(Joined(lines)) == lines
  {
    hide Full, Lined, FindChar, Joined;
    if lines == [] {
      JoinedNothing();
    } else {
      LinedTail(lines);
      JoinedCons(lines[0], lines[1..]);
      assert lines == [lines[0]] + lines[1..];
      if Full(lines[0]) {
        FullFirst(lines[0], Joined(lines[1..]));
        LinesOfJoined(lines[1..]);
      } else {
        JoinedNothing();
        FindsNone(lines[0], '\n', 0);
      }
    }
  }

  lemma JoinedNothing()
    ensures Joined([]) == "" && forall s: string :: s + "" == s
  {}

  lemma FullFirst(line: string, rest: string)
    requires Full(line)
    ensures Lines(line + rest) == [line] + Lines(rest)
  {
    hide FindChar;
    FindsNewline(line, rest, 0);
    assert (line + rest)[..|line|] == line && (line + rest)[|line|..] == rest;
  }

  lemma {:induction false} FirstNewline(s: string, i: nat)
    requires i <= |s|
    ensures var k := FindChar(s, '\n', i); i <= k && '\n' !in s[i..k] && (k < |s| ==> s[k] == '\n')
    decreases |s| - i
  {
    if i < |s| && s[i] != '\n' {
      FirstNewline(s, i + 1);
      var k := FindChar(s, '\n', i);
      assert s[i..k] == [s[i]] + s[i + 1..k];
    }
  }

  lemma LinedCons(line: string, rest: seq<string>)
    requires Full(line) && Lined(rest)
    ensures Lined([line] + rest)
  {
    hide Full;
    if rest != [] {
      assert ([line] + rest)[..|rest|] == [line] + rest[..|rest| - 1];
    } else {
      assert ([line] + rest)[..0] == [];
    }
  }

  lemma {:induction false} LinesAreLined(s: string)
    ensures Lined(Lines(s)) && Joined(Lines(s)) == s
    decreases |s|
  {
    hide FindChar, Joined, Lined;
    if s == "" {
      JoinedNothing();
      LinedEmpty("");
    } else {
      FirstNewline(s, 0);
      var k := FindChar(s, '\n', 0);
      assert s[0..k] == s[..k];
      if k < |s| {
        LinesAreLined(s[k + 1..]);
        assert s[..k + 1][..k] == s[..k];
        LinedCons(s[..k + 1], Lines(s[k + 1..]));
        JoinedCons(s[..k + 1], Lines(s[k + 1..]));
      } else {
        JoinedNothing();
        JoinedCons(s, []);
        assert [s] + [] == [s] && s[..k] == s;
        LinedEmpty(s);
      }
    }
  }

  lemma LinedEmpty(s: string)
    ensures Lined([]) && (s != "" && '\n' !in s ==> Lined([s]))
  {}

  /** A text of complete lines can be split off the front. */
  lemma LinesAppend(x: string, y: string)
    requires x == "" || x[|x| - 1] == '\n'
    ensures Lines(x + y) == Lines(x) + Lines(y)
  {
    hide Lines, Lined, Joined;
    LinesAreLined(x);
    LinesAreLined(y);
    CompleteLines(x);
    LinedAppend(Lines(x), Lines(y));
    JoinedAppend(Lines(x), Lines(y));
    LinesOfJoined(Lines(x) + Lines(y));
  }

  lemma LinedAppend(a: seq<string>, b: seq<string>)
    requires AllFull(a) && Lined(b)
    ensures Lined(a + b)
  {
    hide Full;
    if b == [] {
      assert a + b == a;
    } else {
      assert (a + b)[..|a + b| - 1] == a + b[..|b| - 1];
    }
  }

  lemma LastChar(a: string, last: string)
    ensures last != "" ==> (a + last)[|a + last| - 1] == last[|last| - 1]
  {}

  lemma LinedEnds(lines: seq<string>)
    requires Lined(lines) && lines != []
    ensures lines[|lines| - 1] != "" && ('\n' in lines[|lines| - 1] ==> AllFull(lines))
  {
    hide AllFull, Full;
    FullIs(lines[|lines| - 1]);
    assert lines == lines[..|lines| - 1] + [lines[|lines| - 1]];
    if AllFull(lines[..|lines| - 1]) { Appends(lines[..|lines| - 1], lines[|lines| - 1]); }
  }

  lemma FullIs(line: string)
    ensures Full(line) ==> line != ""
  {}

  lemma NoLinesAreFull()
    ensures AllFull([])
  {}

  lemma JoinedLast(lines: seq<string>)
    requires lines != []
    ensures Joined(lines) == Joined(lines[..|lines| - 1]) + lines[|lines| - 1]
  {}

  lemma CompleteLines(x: string)
    requires x == "" || x[|x| - 1] == '\n'
    ensures AllFull(Lines(x))
  {
    hide Lines, Joined, Lined, Full, AllFull;
    NoLinesAreFull();
    LinesAreLined(x);
    var lines := Lines(x);
    if lines != [] {
      LinedEnds(lines);
      JoinedLast(lines);
      LastChar(Joined(lines[..|lines| - 1]), lines[|lines| - 1]);
    }
  }

  // ----- kept lines are lines again

  lemma Appends(kept: seq<string>, line: string)
    requires AllFull(kept)
    ensures Lined(kept) && (Full(line) ==> AllFull(kept + [line]))
    ensures line != "" && '\n' !in line ==> Lined(kept + [line])
  {
    hide Full;
    assert (kept + [line])[..|kept|] == kept;
  }

  lemma PrefixIsFull(a: seq<string>, b: seq<string>)
    requires a <= b && AllFull(b)
    ensures AllFull(a)
  {
    hide Full;
  }

  lemma StepIsFull(st: State, line: string)
    requires AllFull(st.kept)
    ensures Full(line) ==> AllFull(Step(st, line).kept)
    ensures line != "" && '\n' !in line ==> Lined(Step(st, line).kept)
  {
    hide Full, AllFull, Lined, Marker, IsHeading, IsHandoff, Separator, DropBlanks, NextFence;
    SeparatorIsBlank(line);
    PrefixIsFull(DropBlanks(st.kept), st.kept);
    Appends(DropBlanks(st.kept), line);
    Appends(st.kept, line);
    Appends(st.kept, Separator(line));
    Appends(st.kept + [Separator(line)], line);
  }

  lemma {:induction false} WalkIsFull(lines: seq<string>)
    requires AllFull(lines)
    ensures AllFull(Walk(Start, lines).kept)
  {
    hide Step, Full;
    if lines != [] {
      WalkIsFull(lines[..|lines| - 1]);
      StepIsFull(Walk(Start, lines[..|lines| - 1]), lines[|lines| - 1]);
    }
  }

  lemma WalkIsLined(lines: seq<string>)
    requires Lined(lines)
    ensures Lined(Walk(Start, lines).kept)
  {
    hide Step, Full;
    if lines != [] {
      var n := |lines| - 1;
      WalkIsFull(lines[..n]);
      StepIsFull(Walk(Start, lines[..n]), lines[n]);
      if Full(lines[n]) { Appends(Walk(Start, lines).kept, lines[n]); }
    }
  }

  /** Taking Handoff sections out twice is taking them out once. */
  lemma Idempotent(body: string)
    ensures WithoutHandoffs(WithoutHandoffs(body)) == WithoutHandoffs(body)
  {
    hide Walk, Lines, Joined, Lined, Clean, FenceAfter;
    LinesAreLined(body);
    var kept := Walk(Start, Lines(body)).kept;
    WalkIsLined(Lines(body));
    LinesOfJoined(kept);
    WalkIsTidy(Lines(body));
    CleanStays(kept);
  }

  /** A body without a Handoff heading outside its fences is returned as it is. */
  lemma NothingElseGoes(body: string)
    requires Clean(Lines(body))
    ensures WithoutHandoffs(body) == body
  {
    hide Walk, Lines, Joined, Lined, Clean, FenceAfter;
    LinesAreLined(body);
    CleanStays(Lines(body));
  }

  // ----- edits inside a Handoff section

  ghost predicate OnlyHandoffHeadings(lines: seq<string>) {
    lines == [] || (OnlyHandoffHeadings(lines[..|lines| - 1]) && (EndsInHeading(lines) ==> IsHandoff(lines[|lines| - 1])))
  }

  lemma {:induction false} DroppedStays(kept: seq<string>)
    ensures DropBlanks(DropBlanks(kept)) == DropBlanks(kept)
  {
    if kept != [] && IsBlank(kept[|kept| - 1]) { DroppedStays(kept[..|kept| - 1]); }
  }

  lemma {:induction false} SectionKeepsNothing(kept: seq<string>, lines: seq<string>)
    requires OnlyHandoffHeadings(lines)
    ensures Walk(State(DropBlanks(kept), None, true), lines) == State(DropBlanks(kept), FenceAfter(lines), true)
  {
    hide Marker, IsHeading, IsHandoff, DropBlanks, Separator, Bare;
    if lines != [] {
      var n := |lines| - 1;
      SectionKeepsNothing(kept, lines[..n]);
      DroppedStays(kept);
      if IsHeading(lines[n]) { HeadingIsNoMarker(lines[n]); }
    }
  }

  /** Complete lines, or nothing. */
  predicate Complete(x: string) {
    x == "" || x[|x| - 1] == '\n'
  }

  lemma HandoffHeads(st: State, heading: string)
    requires st.fence.None? && IsHandoff(heading)
    ensures Step(st, heading) == State(DropBlanks(st.kept), None, true)
  {
    assert IsHeading(heading);
    HeadingIsNoMarker(heading);
  }

  lemma HandoffIsLined(heading: string)
    requires IsHandoff(heading)
    ensures Lined([heading])
  {
    assert heading == "## Handoff" + "\n" || heading == "## Handoff\r" + "\n" || heading == "## Handoff";
    if Complete(heading) { assert heading[..|heading| - 1] == "## Handoff" || heading[..|heading| - 1] == "## Handoff\r"; }
    assert [heading][..0] == [];
  }

  lemma OneLine(heading: string)
    requires IsHandoff(heading)
    ensures Lines(heading) == [heading]
  {
    hide *;
    JoinedCons(heading, []);
    JoinedNothing();
    HandoffIsLined(heading);
    LinesOfJoined([heading]);
    assert [heading] + [] == [heading] && heading + "" == heading;
  }

  lemma ToHeading(above: string, heading: string)
    requires Complete(above) && IsHandoff(heading) && FenceAfter(Lines(above)).None?
    ensures Lines(above + heading) == Lines(above) + [heading]
    ensures Walk(Start, Lines(above + heading)) == State(DropBlanks(Walk(Start, Lines(above)).kept), None, true)
  {
    hide Lines, Step, FenceAfter, DropBlanks, IsHandoff;
    LinesAppend(above, heading);
    OneLine(heading);
    WalkReads(Lines(above));
    WalkAppend(Start, Lines(above), [heading]);
    WalkOne(Walk(Start, Lines(above)), heading);
    HandoffHeads(Walk(Start, Lines(above)), heading);
  }

  /** Nothing of the section is kept; only its fences may still be open. */
  lemma ThroughSection(above: string, heading: string, section: string)
    requires Complete(above) && IsHandoff(heading) && FenceAfter(Lines(above)).None?
    requires (Complete(heading) || section == "") && OnlyHandoffHeadings(Lines(section))
    ensures Walk(Start, Lines(above + heading + section)) == State(DropBlanks(Walk(Start, Lines(above)).kept), FenceAfter(Lines(section)), true)
  {
    hide Lines, Step, FenceAfter, DropBlanks, OnlyHandoffHeadings, IsHandoff;
    ToHeading(above, heading);
    if section == "" {
      assert above + heading + section == above + heading;
      NothingOpen();
    } else {
      EndsComplete(above, heading);
      LinesAppend(above + heading, section);
      WalkAppend(Start, Lines(above) + [heading], Lines(section));
      SectionKeepsNothing(Walk(Start, Lines(above)).kept, Lines(section));
    }
  }

  lemma NothingOpen()
    ensures FenceAfter(Lines("")).None?
  {}

  lemma WalkOne(st: State, line: string)
    ensures Walk(st, [line]) == Step(st, line)
  {
    hide Step;
    assert [line][..0] == [];
  }

  lemma EndsComplete(x: string, y: string)
    requires Complete(x) && Complete(y)
    ensures Complete(x + y)
  {}

  /**
   * A heading and what stands under it are one Handoff section before `below`: no other document heading, and where
   * something follows, whole lines with every fence closed. At the end of the file anything goes.
   */
  ghost predicate Section(heading: string, section: string, below: string) {
    && IsHandoff(heading) && (Complete(heading) || section == "") && OnlyHandoffHeadings(Lines(section))
    && (below == "" || (Complete(heading) && Complete(section) && FenceAfter(Lines(section)).None?))
  }

  /** No edit of a Handoff section changes the result: neither of its heading, nor of what stands under it. */
  lemma EditsInsideDoNotShow(above: string, heading: string, section: string, newHeading: string, edited: string, below: string)
    requires Complete(above) && FenceAfter(Lines(above)).None?
    requires Section(heading, section, below) && Section(newHeading, edited, below)
    ensures WithoutHandoffs(above + heading + section + below) == WithoutHandoffs(above + newHeading + edited + below)
  {
    hide *;
    SectionIs(heading, section, below);
    SectionIs(newHeading, edited, below);
    ThroughSection(above, heading, section);
    ThroughSection(above, newHeading, edited);
    if below == "" {
      Unchanged(above + heading + section);
      Unchanged(above + newHeading + edited);
      assert above + heading + section + below == above + heading + section;
      assert above + newHeading + edited + below == above + newHeading + edited;
    } else {
      EndsComplete(above, heading);
      EndsComplete(above, newHeading);
      EndsComplete(above + heading, section);
      EndsComplete(above + newHeading, edited);
      SplitWalk(above + heading + section, below);
      SplitWalk(above + newHeading + edited, below);
    }
  }

  lemma SectionIs(heading: string, section: string, below: string)
    requires Section(heading, section, below)
    ensures IsHandoff(heading) && (Complete(heading) || section == "") && OnlyHandoffHeadings(Lines(section))
    ensures below != "" ==> Complete(heading) && Complete(section) && FenceAfter(Lines(section)).None?
  {
    hide Lines, FenceAfter, OnlyHandoffHeadings;
  }

  lemma Unchanged(x: string)
    ensures WithoutHandoffs(x) == Joined(Walk(Start, Lines(x)).kept)
  {}

  lemma SplitWalk(x: string, y: string)
    requires Complete(x)
    ensures WithoutHandoffs(x + y) == Joined(Walk(Walk(Start, Lines(x)), Lines(y)).kept)
  {
    hide Walk, Lines, Joined;
    LinesAppend(x, y);
    WalkAppend(Start, Lines(x), Lines(y));
  }

  // ----- the loop

  method DropTrailingBlanks(all: seq<string>) returns (kept: seq<string>)
    ensures kept == DropBlanks(all)
  {
    kept := all;
    while |kept| > 0 && IsBlank(kept[|kept| - 1])
      invariant DropBlanks(kept) == DropBlanks(all)
    {
      kept := kept[..|kept| - 1];
    }
  }

  /** withoutHandoffs. */
  method RemoveHandoffs(body: string) returns (text: string)
    ensures text == WithoutHandoffs(body)
  {
    hide Marker, IsHeading, IsHandoff, DropBlanks, Separator, NextFence, Joined, Lines;
    var lines, kept, fence, handoff := Lines(body), [], None, false;
    for i := 0 to |lines|
      invariant Walk(Start, lines[..i]) == State(kept, fence, handoff)
    {
      assert lines[..i + 1][..i] == lines[..i];
      var line := lines[i];
      if Marker(line).Some? {
        fence := NextFence(fence, line);
        if !handoff { kept := kept + [line]; }
        continue;
      }
      if fence.None? && IsHeading(line) {
        var nextHandoff := IsHandoff(line);
        if nextHandoff {
          kept := DropTrailingBlanks(kept);
        } else if handoff && |kept| > 0 {
          kept := kept + [Separator(line)];
        }
        handoff := nextHandoff;
      }
      if !handoff { kept := kept + [line]; }
    }
    assert lines[..|lines|] == lines;
    text := Joined(kept);
  }
}
