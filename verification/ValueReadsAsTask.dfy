/** A status value that itself reads as a task heading: the scan takes it for one, and writing the value loses the task. */
module ValueReadsAsTask {
  import opened Text
  import opened PlanScan

  const HEAD_REST := "]</code> Milestone M"

  /** A plan that is one milestone heading of this status value. */
  function Heading(value: string): string {
    HEAD_OPEN + value + HEAD_REST + "1:"
  }

  lemma RestIs()
    ensures |HEAD_REST| == 20 && HEAD_REST[0] == ']' && HEAD_REST[2] == '/' && HEAD_REST[3] == 'c'
    ensures forall k :: 0 <= k < 20 && k != 1 ==> HEAD_REST[k] != '<'
  {}

  lemma HeadingIs(v: string)
    ensures var s, j := Heading(v), 26 + |v|;
      && |s| == j + 22 && s[..26] == HEAD_OPEN && s[26..j] == v && s[j..] == HEAD_REST + "1:" && s[j..j + 20] == HEAD_REST && s[j] == ']'
      && s[j + 20] == '1' && s[j + 21] == ':'
      && (forall k :: 0 <= k < 26 ==> s[k] == HEAD_OPEN[k])
      && (forall k :: 26 <= k < j ==> s[k] == v[k - 26])
      && (forall k :: j <= k < j + 20 ==> s[k] == HEAD_REST[k - j])
  {
    hide *;
    OpenIs();
    RestIs();
    HeadingParts(v);
    var s, tail := Heading(v), HEAD_REST + "1:";
    Pieces(HEAD_OPEN, v, tail);
    assert |tail| == 22 && tail[..20] == HEAD_REST && tail[20] == '1' && tail[21] == ':';
    assert forall k :: 0 <= k < 20 ==> tail[k] == HEAD_REST[k];
    assert s[26 + |v|..26 + |v| + 20] == s[26 + |v|..][..20];
  }

  lemma Pieces(a: string, v: string, b: string)
    ensures var s, j := a + v + b, |a| + |v|;
      && |s| == j + |b| && s[..|a|] == a && s[|a|..j] == v && s[j..] == b
      && (forall k :: 0 <= k < |a| ==> s[k] == a[k])
      && (forall k :: |a| <= k < j ==> s[k] == v[k - |a|])
      && (forall k :: j <= k < |s| ==> s[k] == b[k - j])
  {}

  lemma OpenIs()
    ensures |HEAD_OPEN| == 26 && V1.headTag + V1.open == HEAD_OPEN && V1.headMid == HEAD_REST
  {
    OnlyTwoAngles();
  }

  lemma StartsTask(s: string, i: nat)
    requires StartsAt(s, i, "<h4>")
    ensures i + 4 <= |s| && s[i] == '<' && s[i + 1] == 'h' && s[i + 2] == '4'
  {
    var lit := "<h4>";
    StartsAtIsPrefix(s, i, lit);
    assert s[i..i + 4][0] == lit[0] && s[i..i + 4][1] == lit[1] && s[i..i + 4][2] == lit[2];
  }

  lemma StartsSectionEnd(s: string, i: nat)
    requires StartsAt(s, i, "</section>")
    ensures i + 10 <= |s| && s[i] == '<' && s[i + 1] == '/' && s[i + 2] == 's'
  {
    var lit := "</section>";
    StartsAtIsPrefix(s, i, lit);
    assert s[i..i + 10][0] == lit[0] && s[i..i + 10][1] == lit[1] && s[i..i + 10][2] == lit[2];
  }

  /** The heading's own text holds no task heading and closes no section. */
  lemma PlainPart(v: string, k: nat)
    requires k < |Heading(v)| && (k < 26 || k >= 26 + |v|)
    ensures !StartsAt(Heading(v), k, "<h4>") && !StartsAt(Heading(v), k, "</section>")
  {
    hide *;
    HeadingIs(v);
    OnlyTwoAngles();
    RestIs();
    OpenIs();
    if StartsAt(Heading(v), k, "<h4>") { StartsTask(Heading(v), k); }
    if StartsAt(Heading(v), k, "</section>") { StartsSectionEnd(Heading(v), k); }
  }

  lemma {:induction false} SkipTasks(s: string, i: nat, j: nat)
    requires i <= j <= |s| && forall k :: i <= k < j ==> !StartsAt(s, k, "<h4>")
    ensures MatchAll(V1, Task, s, i) == MatchAll(V1, Task, s, j)
    decreases j - i
  {
    hide StartsAt;
    if i < j { SkipTasks(s, i + 1, j); }
  }

  lemma {:induction false} NoSectionFrom(s: string, i: nat)
    requires i <= |s| && forall k :: i <= k < |s| ==> !StartsAt(s, k, "</section>")
    ensures IndexOf(s, "</section>", i).None?
    decreases |s| - i
  {
    if i < |s| {
      NoSectionFrom(s, i + 1);
    } else {
      StartsAtIsPrefix(s, i, "</section>");
    }
  }

  lemma {:induction false} FindsAt(s: string, i: nat, j: nat)
    requires i <= j < |s| && s[j] == ']' && forall k :: i <= k < j ==> s[k] != ']'
    ensures FindChar(s, ']', i) == j
    decreases j - i
  {
    if i < j { FindsAt(s, i + 1, j); }
  }

  lemma OneDigit(s: string, i: nat)
    requires i + 1 < |s| && s[i] == '1' && !IsDigit(s[i + 1])
    ensures Digits(s, i) == "1"
  {
    assert Digits(s, i + 1) == "";
  }

  lemma Begins(s: string, i: nat, lit: string)
    requires i + |lit| <= |s| && s[i..i + |lit|] == lit
    ensures StartsAt(s, i, lit)
  {
    StartsAtIsPrefix(s, i, lit);
  }

  lemma HeadingMatches(v: string)
    requires ']' !in v
    ensures MatchHead(V1, Heading(v), 0) == Some(Hit(0, 26, 26 + |v|, |Heading(v)|, "M1"))
  {
    hide *;
    var s, j := Heading(v), 26 + |v|;
    HeadingIs(v);
    OpenIs();
    RestIs();
    Begins(s, 0, HEAD_OPEN);
    Begins(s, j, HEAD_REST);
    forall k | 26 <= k < j ensures s[k] != ']' { assert v[k - 26] in v; }
    FindsAt(s, 26, j);
    NotDigit();
    OneDigit(s, j + 20);
    BracketedIs(s, j);
    HeadIs(s, j);
  }

  lemma BracketedIs(s: string, j: nat)
    requires 26 <= j <= |s| && |HEAD_OPEN| == 26 && StartsAt(s, 0, HEAD_OPEN) && FindChar(s, ']', 26) == j && StartsAt(s, j, HEAD_REST)
    ensures Bracketed(s, 0, HEAD_OPEN, HEAD_REST) == Some(j)
  {
    hide StartsAt, FindChar;
  }

  lemma HeadIs(s: string, j: nat)
    requires V1.headTag + V1.open == HEAD_OPEN && V1.headMid == HEAD_REST && |HEAD_OPEN| == 26 && |HEAD_REST| == 20
    requires Bracketed(s, 0, HEAD_OPEN, HEAD_REST) == Some(j) && |s| == j + 22 && Digits(s, j + 20) == "1" && s[j + 21] == ':'
    ensures MatchHead(V1, s, 0) == Some(Hit(0, 26, j, |s|, "M1"))
  {
    hide Bracketed, Digits;
    assert "M" + "1" == "M1";
  }

  lemma OneHeading(v: string)
    requires ']' !in v
    ensures MatchAll(V1, Head, Heading(v), 0) == [Hit(0, 26, 26 + |v|, |Heading(v)|, "M1")]
  {
    hide MatchHead;
    HeadingMatches(v);
    HeadingIs(v);
    NothingLeft(Heading(v), Head);
  }

  lemma NothingLeft(s: string, p: Pattern)
    ensures MatchAll(V1, p, s, |s|) == []
  {}

  lemma {:induction false} AsMany(s: string, heads: seq<Hit>, head: Token)
    ensures |Tasks(V1, s, 0, |s|, heads, head.milestone, head.value)| == |heads|
  {
    hide TaskOf;
    if heads != [] { AsMany(s, heads[1..], head); }
  }

  /** The plan has as many tasks as its text has task headings. */
  lemma TasksOfHeading(v: string)
    requires ']' !in v && forall k :: 0 <= k < |Heading(v)| ==> !StartsAt(Heading(v), k, "</section>")
    ensures |AllTasks(Scan(V1, Heading(v)))| == |MatchAll(V1, Task, Heading(v), 0)|
  {
    hide MatchAll, TaskOf, HeadToken, Heading, Tasks, IndexOf, StartsAt;
    var s := Heading(v);
    var h := Hit(0, 26, 26 + |v|, |s|, "M1");
    OneHeading(v);
    NoSectionFrom(s, 0);
    AsMany(s, MatchAll(V1, Task, s, 0), HeadToken(V1, s, h));
    OnlySection(s, h);
  }

  lemma OnlySection(s: string, h: Hit)
    requires h.start == 0 && IndexOf(s, "</section>", 0).None?
    ensures AllTasks(Sections(V1, s, [h]))
      == Tasks(V1, s, 0, |s|, MatchAll(V1, Task, s, 0), HeadToken(V1, s, h).milestone, HeadToken(V1, s, h).value)
  {
    hide *;
    SectionsOne(s, h);
    SectionTasks(s, h);
    OneOf(SectionOf(V1, s, [h]));
  }

  lemma SectionsOne(s: string, h: Hit)
    ensures Sections(V1, s, [h]) == [SectionOf(V1, s, [h])]
  {
    hide SectionOf;
    assert [h][1..] == [];
  }

  lemma SectionTasks(s: string, h: Hit)
    requires h.start == 0 && IndexOf(s, "</section>", 0).None?
    ensures SectionOf(V1, s, [h]).tasks
      == Tasks(V1, s, 0, |s|, MatchAll(V1, Task, s, 0), HeadToken(V1, s, h).milestone, HeadToken(V1, s, h).value)
  {
    hide *;
    EndsAtTextEnd(s, h);
    WholeBlock(V1, s, h);
  }

  lemma WholeBlock(g: Grammar, s: string, h: Hit)
    requires h.start == 0 && BlockEnd(g, s, [h]) == |s|
    ensures SectionOf(g, s, [h]).tasks
      == Tasks(g, s, 0, |s|, MatchAll(g, Task, s, 0), HeadToken(g, s, h).milestone, HeadToken(g, s, h).value)
  {
    hide MatchAll, HeadToken, Tasks, BlockEnd;
    assert Slice(s, 0, |s|) == s;
  }

  lemma EndsAtTextEnd(s: string, h: Hit)
    requires h.start == 0 && IndexOf(s, "</section>", 0).None?
    ensures BlockEnd(V1, s, [h]) == |s|
  {
    hide IndexOf;
  }

  lemma OneOf(section: Section)
    ensures AllTasks([section]) == section.tasks
  {
    assert [section][1..] == [] && section.tasks + [] == section.tasks;
  }

  lemma PlainHeading(v: string)
    requires |v| < 10 && ']' !in v && forall k :: 0 <= k < |v| ==> v[k] != '<'
    ensures |AllTasks(Scan(V1, Heading(v)))| == 0
  {
    hide *;
    var s := Heading(v);
    HeadingIs(v);
    forall k | 0 <= k < |s| ensures !StartsAt(s, k, "<h4>") && !StartsAt(s, k, "</section>") {
      if 26 <= k < 26 + |v| {
        if StartsAt(s, k, "<h4>") { StartsTask(s, k); }
        if StartsAt(s, k, "</section>") { StartsSectionEnd(s, k); }
      } else {
        PlainPart(v, k);
      }
    }
    TasksOfHeading(v);
    SkipTasks(s, 0, |s|);
    NothingLeft(s, Task);
  }

  lemma TaskHere(s: string)
    requires 32 <= |s| && s[26..32] == "<h4>1." && forall k :: 0 <= k < |s| && k != 26 ==> !StartsAt(s, k, "<h4>")
    ensures |MatchAll(V1, Task, s, 0)| == 1
  {
    hide *;
    var v := "<h4>1.";
    SkipTasks(s, 0, 26);
    SkipTasks(s, 32, |s|);
    NothingLeft(s, Task);
    ValueIs();
    assert s[26..30] == v[..4] by { assert s[26..32][..4] == s[26..30]; }
    Begins(s, 26, "<h4>");
    assert s[30] == s[26..32][4] && s[31] == s[26..32][5];
    NotDigit();
    OneDigit(s, 30);
    OneTask(s);
  }

  lemma ValueIs()
    ensures "<h4>1."[..4] == "<h4>" && "<h4>1."[4] == '1' && "<h4>1."[5] == '.'
  {}

  lemma NotDigit()
    ensures !IsDigit('.') && !IsDigit(':')
  {}

  lemma OneTask(s: string)
    requires 32 <= |s| && StartsAt(s, 26, "<h4>") && Digits(s, 30) == "1" && s[31] == '.' && MatchAll(V1, Task, s, 32) == []
    requires MatchAll(V1, Task, s, 0) == MatchAll(V1, Task, s, 26)
    ensures |MatchAll(V1, Task, s, 0)| == 1
  {
    hide StartsAt, Digits;
    assert MatchTask(V1, s, 26) == Some(Hit(26, 30, 31, 32, "1"));
  }

  lemma MarkedHeading()
    ensures |AllTasks(Scan(V1, Heading("<h4>1.")))| == 1
  {
    hide *;
    var v := "<h4>1.";
    var s := Heading(v);
    HeadingIs(v);
    MarkedValue();
    forall k | 0 <= k < |s| ensures (k != 26 ==> !StartsAt(s, k, "<h4>")) && !StartsAt(s, k, "</section>") {
      if 26 <= k < 32 {
        if StartsAt(s, k, "<h4>") { StartsTask(s, k); }
        if StartsAt(s, k, "</section>") { StartsSectionEnd(s, k); }
      } else {
        PlainPart(v, k);
      }
    }
    TasksOfHeading(v);
    TaskHere(s);
  }

  lemma MarkedValue()
    ensures var v := "<h4>1."; |v| == 6 && ']' !in v && v[1] == 'h' && forall k :: 1 <= k < 6 ==> v[k] != '<'
  {}

  /** Writing `x` over a heading's value through its own span loses a task where the value reads as a task heading. */
  lemma WritingLosesTheTask()
    ensures Heading("x") == Heading("<h4>1.")[..26] + "x" + Heading("<h4>1.")[32..]
    ensures |AllTasks(Scan(V1, Heading("<h4>1.")))| == 1 && |AllTasks(Scan(V1, Heading("x")))| == 0
  {
    hide *;
    MarkedHeading();
    PlainHeading("x");
    HeadingIs("<h4>1.");
    MarkedValue();
    Spliced();
  }

  lemma Spliced()
    ensures Heading("x") == HEAD_OPEN + "x" + (HEAD_REST + "1:")
  {
    hide *;
    HeadingParts("x");
  }

  lemma HeadingParts(v: string)
    ensures Heading(v) == HEAD_OPEN + v + (HEAD_REST + "1:")
  {}
}
