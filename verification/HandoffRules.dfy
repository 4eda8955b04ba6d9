/** What a fence, a heading and a removed section are, in the characters of a ticket body. */
module HandoffRules {
  import opened Text
  import opened Handoffs

  // ----- fences

  /** From i on, n characters are all c. */
  ghost predicate All(s: string, i: nat, n: nat, c: char) {
    i + n <= |s| && forall k :: i <= k < i + n ==> s[k] == c
  }

  /** At most three spaces, then a run of at least three backticks or tildes, n in all. */
  ghost predicate FenceLine(line: string, indent: nat, mark: char, n: nat) {
    && indent <= 3 && All(line, 0, indent, ' ') && (mark == '`' || mark == '~') && n >= 3
    && All(line, indent, n, mark) && (indent + n < |line| ==> line[indent + n] != mark)
  }

  lemma {:induction false} RunIs(s: string, i: nat, c: char)
    requires i <= |s|
    ensures var n := RunOf(s, i, c); All(s, i, n, c) && (i + n < |s| ==> s[i + n] != c)
    decreases |s| - i
  {
    if i < |s| && s[i] == c { RunIs(s, i + 1, c); }
  }

  lemma {:induction false} RunOnly(s: string, i: nat, c: char, n: nat)
    requires All(s, i, n, c) && (i + n < |s| ==> s[i + n] != c)
    ensures RunOf(s, i, c) == n
    decreases n
  {
    if n > 0 { RunOnly(s, i + 1, c, n - 1); }
  }

  /** A fence line is recognised exactly where one stands. */
  lemma MarkerIff(line: string, mark: char, n: nat)
    ensures Marker(line) == Some(Fence(mark, n)) <==> exists indent :: FenceLine(line, indent, mark, n)
  {
    hide RunOf;
    RunIs(line, 0, ' ');
    var k := RunOf(line, 0, ' ');
    if Marker(line) == Some(Fence(mark, n)) {
      RunIs(line, k, mark);
      assert FenceLine(line, k, mark, n);
    }
    if indent: nat :| FenceLine(line, indent, mark, n) {
      assert line[indent] == mark;
      RunOnly(line, 0, ' ', indent);
      RunOnly(line, indent, mark, n);
    }
  }

  /** White space as a regular expression's `\s` has it. */
  ghost predicate White(c: char) {
    || c in {' ', '\t', '\n', '\U{000B}', '\U{000C}', '\r', '\U{00A0}', '\U{1680}', '\U{2028}', '\U{2029}', '\U{202F}', '\U{205F}', '\U{3000}', '\U{FEFF}'}
    || '\U{2000}' <= c <= '\U{200A}'
  }

  /** A fence opens at the first fence line, and closes at the next of the same character, as long at least, with nothing but white space behind it. */
  lemma FenceMoves(fence: Option<Fence>, line: string, indent: nat, mark: char, n: nat)
    requires FenceLine(line, indent, mark, n)
    ensures fence.None? ==> NextFence(fence, line) == Some(Fence(mark, n))
    ensures fence.Some? ==> NextFence(fence, line) == (if mark == fence.value.mark && n >= fence.value.length && (forall k :: indent + n <= k < |line| ==> White(line[k])) then None else fence)
  {
    hide RunOf;
    MarkerIff(line, mark, n);
    assert line[indent] == mark;
    RunOnly(line, 0, ' ', indent);
    RunOnly(line, indent, mark, n);
    forall c: char ensures White(c) <==> IsSpace(c) {}
  }

  lemma OtherLinesDoNotMove(fence: Option<Fence>, line: string)
    requires forall indent, mark, n :: !FenceLine(line, indent, mark, n)
    ensures NextFence(fence, line) == fence
  {
    hide RunOf;
    if Marker(line).Some? { MarkerIff(line, Marker(line).value.mark, Marker(line).value.length); }
  }

  // ----- headings

  /** A heading of the document: one or two hashes and a space. */
  lemma HeadingIs(line: string)
    ensures IsHeading(line) <==> (|line| >= 2 && line[0] == '#' && (line[1] == ' ' || (|line| >= 3 && line[1] == '#' && line[2] == ' ')))
  {
    StartsAtIsPrefix(line, 0, "# ");
    StartsAtIsPrefix(line, 0, "## ");
    if |line| >= 2 { assert line[0..2] == [line[0], line[1]]; }
    if |line| >= 3 { assert line[0..3] == [line[0], line[1], line[2]]; }
    assert "# " == ['#', ' '] && "## " == ['#', '#', ' '];
  }

  // ----- one removed section, to the letter

  /** The text is these lines' text with every blank line at its end taken off. */
  ghost predicate Trimmed(text: string, kept: string) {
    exists blanks: seq<string> :: Ends(text, kept, blanks) && (forall b :: b in blanks ==> b == "\n" || b == "\r\n")
  }

  ghost predicate Ends(text: string, kept: string, blanks: seq<string>) {
    text == kept + Joined(blanks)
  }

  lemma {:induction false} DropsBlanks(kept: seq<string>) returns (blanks: seq<string>)
    ensures kept == DropBlanks(kept) + blanks && (forall b :: b in blanks ==> b == "\n" || b == "\r\n")
    ensures DropBlanks(kept) != [] ==> DropBlanks(kept)[|DropBlanks(kept)| - 1] !in {"\n", "\r\n"}
  {
    if kept != [] && IsBlank(kept[|kept| - 1]) {
      var rest := DropsBlanks(kept[..|kept| - 1]);
      blanks := rest + [kept[|kept| - 1]];
      assert kept == kept[..|kept| - 1] + [kept[|kept| - 1]];
    } else {
      blanks := [];
      assert kept == DropBlanks(kept) + [];
    }
  }

  /** A heading of the document that is no Handoff heading, on a whole line. */
  ghost predicate NextHeading(line: string) {
    IsHeading(line) && !IsHandoff(line) && Full(line)
  }

  /**
   One Handoff section between other text: it goes with the blank lines before it, one line break as the next heading's own
   stands in its place, and everything else stays to the letter.
  */
  lemma OneSectionGoes(above: string, heading: string, section: string, next: string, below: string) returns (kept: string)
    requires Complete(above) && Clean(Lines(above)) && FenceAfter(Lines(above)).None?
    requires IsHandoff(heading) && Complete(heading) && Complete(section) && OnlyHandoffHeadings(Lines(section)) && FenceAfter(Lines(section)).None?
    requires NextHeading(next) && Clean(Lines(next + below))
    ensures Trimmed(above, kept)
    ensures kept != "" ==> exists lines: seq<string> :: lines != [] && kept == Joined(lines) && lines[|lines| - 1] !in {"\n", "\r\n"}
    ensures WithoutHandoffs(above + heading + section + (next + below))
      == kept + (if kept == "" then "" else if |next| >= 2 && next[|next| - 2] == '\r' then "\r\n" else "\n") + next + below
  {
    hide Lines, FenceAfter, OnlyHandoffHeadings, DropBlanks, IsHandoff, IsHeading, Clean, Walk, Step;
    var before := Lines(above);
    LinesAreLined(above);
    CleanStays(before);
    ThroughSection(above, heading, section);
    EndsComplete(above, heading);
    EndsComplete(above + heading, section);
    SplitWalk(above + heading + section, next + below);
    var blanks := DropsBlanks(before);
    var left := DropBlanks(before);
    kept := Joined(left);
    JoinedAppend(left, blanks);
    assert Ends(above, kept, blanks);
    NothingLeft(left, before);
    var lines := Lines(next + below);
    NextLine(next, below);
    NextWalk(left, next, lines[1..]);
    JoinedAfter(left, next, lines[1..], below);
  }

  /** No line is empty, so nothing is left exactly when no line is. */
  lemma NothingLeft(left: seq<string>, all: seq<string>)
    requires left <= all && Lined(all)
    ensures Joined(left) == "" <==> left == []
  {
    hide Full;
    if left != [] {
      var n := |left| - 1;
      assert Joined(left) == Joined(left[..n]) + left[n] && left[n] == all[n];
      SomeText(all, n);
    }
  }

  lemma SomeText(all: seq<string>, n: nat)
    requires Lined(all) && n < |all|
    ensures all[n] != ""
  {
    if n < |all| - 1 { assert all[..|all| - 1][n] == all[n]; }
  }

  lemma NextLine(next: string, below: string)
    requires NextHeading(next)
    ensures Lines(next + below) == [next] + Lines(below) && Lines(next + below)[1..] == Lines(below)
  {
    hide Lines, IsHeading, IsHandoff;
    FullFirst(next, below);
  }

  /** The heading after the section puts its separator and stays; the lines behind it stay as they are. */
  lemma NextWalk(left: seq<string>, next: string, rest: seq<string>)
    requires NextHeading(next) && Clean([next] + rest)
    ensures Walk(State(left, None, true), [next] + rest).kept == left + (if left == [] then [] else [Separator(next)]) + [next] + rest
  {
    hide Walk, Step, Clean, Separator, IsHeading, IsHandoff, Full, FenceAfter;
    WalkAppend(State(left, None, true), [next], rest);
    WalkOne(State(left, None, true), next);
    NextStep(left, next);
    CleanTail(left + (if left == [] then [] else [Separator(next)]), next, rest);
  }

  lemma NextStep(left: seq<string>, next: string)
    requires NextHeading(next)
    ensures Step(State(left, None, true), next) == State(left + (if left == [] then [] else [Separator(next)]) + [next], None, false)
  {
    hide Marker, Separator, IsHeading, IsHandoff, Full;
    HeadingIsNoMarker(next);
    assert left + [] == left;
  }

  /** Behind a heading, a clean text is kept as it stands. */
  lemma {:induction false} CleanTail(left: seq<string>, next: string, rest: seq<string>)
    requires NextHeading(next) && Clean([next] + rest)
    ensures Walk(State(left + [next], None, false), rest) == State(left + [next] + rest, FenceAfter([next] + rest), false)
  {
    hide Marker, IsHeading, IsHandoff, DropBlanks, Separator, Bare, Full;
    if rest == [] {
      assert [next] + rest == [next] && left + [next] + rest == left + [next];
      HeadingIsNoMarker(next);
      assert [next][..0] == [];
    } else {
      var n := |rest| - 1;
      var all := [next] + rest;
      assert all[..|all| - 1] == [next] + rest[..n] && all[|all| - 1] == rest[n];
      CleanTail(left, next, rest[..n]);
      assert left + [next] + rest[..n] + [rest[n]] == left + [next] + rest;
      if IsHeading(rest[n]) { HeadingIsNoMarker(rest[n]); }
    }
  }

  lemma JoinedAfter(left: seq<string>, next: string, rest: seq<string>, below: string)
    requires NextHeading(next) && rest == Lines(below)
    ensures Joined(left + (if left == [] then [] else [Separator(next)]) + [next] + rest)
      == Joined(left) + (if left == [] then "" else if |next| >= 2 && next[|next| - 2] == '\r' then "\r\n" else "\n") + next + below
  {
    hide Lines, IsHeading, IsHandoff;
    LinesAreLined(below);
    var sep := if left == [] then [] else [Separator(next)];
    JoinedAppend(left + sep + [next], rest);
    JoinedAppend(left + sep, [next]);
    JoinedAppend(left, sep);
    One(next);
    One(Separator(next));
    JoinedNothing();
  }

  lemma One(x: string)
    ensures Joined([x]) == x
  {
    assert [x][..0] == [] && Joined([]) == "" && "" + x == x;
  }
}
