/** What an accepted closure reports is enough to rebuild the tree after it, and exactly when it is. */
module ClosureRebuilt {
  import opened Text
  import opened PlanScan
  import opened Splice
  import opened Holes
  import opened Rewrite
  import opened ScanOrder
  import opened ClosureTree
  import opened ClosureDelta
  import opened ClosureExact

  // ----- rebuilding

  /** The change tells of this value: its place among the plan's rows, and what it was. */
  predicate Tells(ch: Change, path: string, m: Mark) {
    ch.path == path && ch.kind == m.kind && ch.milestone == m.milestone && ch.row == m.row && ch.oldValue == m.value
  }

  /** The new value the report gives a mark, if it tells of it. */
  function NewValue(changes: seq<Change>, path: string, m: Mark): (v: Option<string>)
    ensures v.None? <==> forall ch :: ch in changes ==> !Tells(ch, path, m)
    ensures v.Some? ==> exists ch :: ch in changes && Tells(ch, path, m) && ch.newValue == v.value
  {
    if changes == [] then None
    else if Tells(changes[0], path, m) then Some(changes[0].newValue)
    else
      assert forall ch :: ch in changes <==> ch == changes[0] || ch in changes[1..];
      NewValue(changes[1..], path, m)
  }

  /** The reported values, by where they are written. */
  function ByStart(changes: seq<Change>, path: string, marks: seq<Mark>): map<nat, string> {
    if marks == [] then map[]
    else
      var rest := ByStart(changes, path, marks[1..]);
      var v := NewValue(changes, path, marks[0]);
      if v.Some? then rest[marks[0].start := v.value] else rest
  }

  /** Each reported value written at its span of the text, and nothing else. */
  function RebuiltText(c: Context, path: string, text: string, changes: seq<Change>): string {
    var marks := MarksOf(c, path, text);
    if marks.None? then text else Spliced(text, Picked(Edits(marks.value), ByStart(changes, path, marks.value)))
  }

  function RebuiltFile(c: Context, path: string, file: File, changes: seq<Change>): File {
    if file.Utf8? then Utf8(RebuiltText(c, path, file.text, changes)) else file
  }

  function Rebuilt(c: Context, before: Tree, changes: seq<Change>): Tree {
    map path | path in before :: RebuiltFile(c, path, before[path], changes)
  }

  // ----- a file the report says nothing of

  lemma {:induction false} NothingByStart(changes: seq<Change>, path: string, marks: seq<Mark>)
    requires forall ch :: ch in changes ==> ch.path != path
    ensures ByStart(changes, path, marks) == map[]
  {
    if marks != [] { NothingByStart(changes, path, marks[1..]); }
  }

  lemma {:induction false} PickedNothing(spans: seq<Edit>)
    ensures Picked(spans, map[]) == []
  {
    if spans != [] { PickedNothing(spans[1..]); }
  }

  lemma UntoldFile(c: Context, path: string, file: File, changes: seq<Change>)
    requires forall ch :: ch in changes ==> ch.path != path
    ensures RebuiltFile(c, path, file, changes) == file
  {
    hide MarksOf, Picked, ByStart;
    if file.Utf8? && MarksOf(c, path, file.text).Some? {
      var marks := MarksOf(c, path, file.text).value;
      NothingByStart(changes, path, marks);
      PickedNothing(Edits(marks));
      NothingSpliced(file.text);
    }
  }

  lemma NothingSpliced(text: string)
    ensures Spliced(text, []) == text
  {}

  // ----- one plan

  /** No two tokens of the plan stand for the same place and hold the same value. */
  ghost predicate ToldApart(tokens: seq<Token>) {
    forall i, j :: 0 <= i < |tokens| && 0 <= j < |tokens| && Alike(tokens[i], tokens[j]) ==> i == j
  }

  predicate Alike(a: Token, b: Token) {
    a.milestone == b.milestone && a.task == b.task && a.value == b.value
  }

  function Changed(path: string, token: Token, value: string): Change {
    ChangeOf(path, TokenMark(token), TokenMark(token.(value := value)))
  }

  ghost predicate Owed(path: string, tokens: seq<Token>, news: seq<string>, ch: Change)
    requires |news| == |tokens|
  {
    exists i :: 0 <= i < |tokens| && tokens[i].value != news[i] && ch == Changed(path, tokens[i], news[i])
  }

  lemma {:induction false} DifferingOwed(path: string, tokens: seq<Token>, news: seq<string>, ch: Change)
    requires |news| == |tokens|
    ensures ch in Differing(path, tokens, news) <==> Owed(path, tokens, news, ch)
    decreases |tokens|
  {
    hide ChangeOf, TokenMark;
    if tokens != [] {
      DifferingOwed(path, tokens[1..], news[1..], ch);
      if i :| 0 <= i < |tokens| && tokens[i].value != news[i] && ch == Changed(path, tokens[i], news[i]) {
        if i > 0 { assert tokens[1..][i - 1] == tokens[i] && news[1..][i - 1] == news[i]; }
      }
      if i :| 0 <= i < |tokens[1..]| && tokens[1..][i].value != news[1..][i] && ch == Changed(path, tokens[1..][i], news[1..][i]) {
        assert tokens[i + 1] == tokens[1..][i] && news[i + 1] == news[1..][i];
      }
    }
  }

  lemma TellsAlike(path: string, a: Token, value: string, b: Token)
    ensures Tells(Changed(path, a, value), path, TokenMark(b)) <==> Alike(a, b)
    ensures Changed(path, a, value).newValue == value
  {}

  /** The changes of one file, among those of every file. */
  ghost predicate Holds(changes: seq<Change>, path: string, own: seq<Change>) {
    forall ch: Change :: ch.path == path ==> (ch in changes <==> ch in own)
  }

  /** A value the plan's rewriting changed is reported, and one it kept is not. */
  lemma ValueTold(path: string, tokens: seq<Token>, news: seq<string>, changes: seq<Change>, i: nat)
    requires |news| == |tokens| && i < |tokens| && ToldApart(tokens) && Holds(changes, path, Differing(path, tokens, news))
    ensures NewValue(changes, path, TokenMark(tokens[i])) == if tokens[i].value == news[i] then None else Some(news[i])
  {
    hide ChangeOf, TokenMark, Differing, NewValue, Tells, Changed;
    var m := TokenMark(tokens[i]);
    forall ch | ch in changes && Tells(ch, path, m) ensures tokens[i].value != news[i] && ch.newValue == news[i] {
      OnItsPath(ch, path, m);
      DifferingOwed(path, tokens, news, ch);
      var j :| 0 <= j < |tokens| && tokens[j].value != news[j] && ch == Changed(path, tokens[j], news[j]);
      TellsAlike(path, tokens[j], news[j], tokens[i]);
    }
    if tokens[i].value != news[i] {
      var ch := Changed(path, tokens[i], news[i]);
      TellsAlike(path, tokens[i], news[i], tokens[i]);
      OnItsPath(ch, path, m);
      DifferingOwed(path, tokens, news, ch);
      assert ch in changes;
    }
  }

  lemma OnItsPath(ch: Change, path: string, m: Mark)
    ensures Tells(ch, path, m) ==> ch.path == path
  {}

  /** Reported values land where the tokens stand. */
  ghost predicate LandsAt(tokens: seq<Token>, news: seq<string>, m: map<nat, string>)
    requires |news| == |tokens|
  {
    forall i :: 0 <= i < |tokens| ==>
      (if tokens[i].value == news[i] then tokens[i].valueStart !in m else tokens[i].valueStart in m && m[tokens[i].valueStart] == news[i])
  }

  lemma {:induction false} ByStartKeys(changes: seq<Change>, path: string, marks: seq<Mark>, start: nat)
    ensures start in ByStart(changes, path, marks) ==> exists i :: 0 <= i < |marks| && marks[i].start == start
  {
    if marks != [] {
      ByStartKeys(changes, path, marks[1..], start);
      if start in ByStart(changes, path, marks[1..]) {
        var i :| 0 <= i < |marks[1..]| && marks[1..][i].start == start;
        assert marks[i + 1] == marks[1..][i];
      }
    }
  }

  lemma {:induction false} ByStartReads(changes: seq<Change>, path: string, marks: seq<Mark>, k: nat)
    requires k < |marks| && forall i, j :: 0 <= i < j < |marks| ==> marks[i].start < marks[j].start
    ensures var v := NewValue(changes, path, marks[k]); var m := ByStart(changes, path, marks);
      if v.Some? then marks[k].start in m && m[marks[k].start] == v.value else marks[k].start !in m
    decreases |marks|
  {
    hide NewValue;
    if k == 0 {
      ByStartKeys(changes, path, marks[1..], marks[0].start);
    } else {
      ByStartReads(changes, path, marks[1..], k - 1);
    }
  }

  lemma RevaluedAre(tokens: seq<Token>, news: seq<string>, m: map<nat, string>)
    requires |news| == |tokens| && LandsAt(tokens, news, m)
    ensures Values(Revalued(Spans(tokens), m)) == news
  {}

  lemma {:induction false} SameGaps(text: string, a: seq<Edit>, b: seq<Edit>, from: nat)
    requires |a| == |b| && forall i :: 0 <= i < |a| ==> a[i].start == b[i].start && a[i].end == b[i].end
    ensures Gaps(text, a, from) == Gaps(text, b, from)
    decreases |a|
  {
    if a != [] { SameGaps(text, a[1..], b[1..], a[0].end); }
  }

  /** Writing what landed is the rewriting itself. */
  lemma SplicedIsRewritten(g: Grammar, html: string, news: seq<string>, m: map<nat, string>)
    requires Readable(g, html) && |news| == |Tokens(Scan(g, html))| && LandsAt(Tokens(Scan(g, html)), news, m)
    ensures Spliced(html, Picked(Spans(Tokens(Scan(g, html))), m)) == Rewritten(g, html, news)
  {
    hide Scan, Tokens, Gaps, Rendered, Picked, Revalued, Weave, Apart, Own, LandsAt, Joints;
    var tokens := Tokens(Scan(g, html));
    var spans := Spans(tokens);
    PlanIsLaid(g, html);
    PickedIsRevalued(html, spans, m, 0);
    RevaluedAre(tokens, news, m);
    RenderedIsWoven(html, Revalued(spans, m), 0);
    SameGaps(html, Revalued(spans, m), spans, 0);
  }

  lemma Lands(html: string, path: string, tokens: seq<Token>, news: seq<string>, changes: seq<Change>)
    requires Laid(html, tokens, 0, |html|) && |news| == |tokens| && ToldApart(tokens)
    requires Holds(changes, path, Differing(path, tokens, news))
    ensures LandsAt(tokens, news, ByStart(changes, path, Marks(tokens)))
  {
    hide ToldApart, Differing, NewValue, ByStart, Holds, TokenReads;
    TokensInOrder(tokens, 0, |html|);
    var marks := Marks(tokens);
    forall i | 0 <= i < |tokens|
      ensures if tokens[i].value == news[i] then tokens[i].valueStart !in ByStart(changes, path, marks)
              else tokens[i].valueStart in ByStart(changes, path, marks) && ByStart(changes, path, marks)[tokens[i].valueStart] == news[i] {
      ValueTold(path, tokens, news, changes, i);
      ByStartReads(changes, path, marks, i);
    }
  }

  /** The report of an accepted plan rebuilds it. */
  lemma PlanRebuilt(c: Context, path: string, left: string, right: string, changes: seq<Change>)
    requires IsPlan(c.registry, path) && Readable(c.g, left) && ToldApart(Tokens(Scan(c.g, left)))
    requires TextCheck(c, path, left, right).Fine? && Holds(changes, path, TextCheck(c, path, left, right).changes)
    ensures RebuiltText(c, path, left, changes) == right
  {
    hide Scan, Tokens, TextCheck, Spliced, Picked, ByStart, Rewritten, AllowedAll, Differing, ToldApart, Holds, LandsAt, Readable;
    var tokens, news := Tokens(Scan(c.g, left)), Values(Spans(Tokens(Scan(c.g, right))));
    PlanAcceptedIsRewrite(c, path, left, right);
    PlanRewriteAccepted(c, path, left, news);
    PlanIsLaid(c.g, left);
    SortedIsTextOrder(c.g, left);
    EditsOfMarks(tokens);
    Lands(left, path, tokens, news, changes);
    SplicedIsRewritten(c.g, left, news, ByStart(changes, path, Marks(tokens)));
  }

  // ----- one ticket

  lemma OneSpliced(text: string, e: Edit, w: string)
    ensures Spliced(text, Picked([e], map[e.start := w])) == Put(text, Edit(e.start, e.end, w))
  {
    var es := [e];
    assert es[1..] == [] && Picked(es[1..], map[e.start := w]) == [];
    var one := [Edit(e.start, e.end, w)];
    assert Picked(es, map[e.start := w]) == one;
    assert one[1..] == [] && Rendered(text, [], e.end) == Slice(text, e.end, |text|);
    assert Rendered(text, one, 0) == Slice(text, 0, e.start) + w + Rendered(text, one[1..], e.end);
  }

  lemma OneByStart(changes: seq<Change>, path: string, m: Mark)
    ensures ByStart(changes, path, [m]) == (var v := NewValue(changes, path, m); if v.Some? then map[m.start := v.value] else map[])
  {
    assert [m][1..] == [];
  }

  lemma TicketRebuilt(c: Context, path: string, left: string, right: string, fm: Front, changes: seq<Change>)
    requires !IsPlan(c.registry, path) && Faithful(c.read) && left != right && c.read(left, IsLight(c.registry, path)) == Some(fm)
    requires TextCheck(c, path, left, right).Fine? && Holds(changes, path, TextCheck(c, path, left, right).changes)
    ensures RebuiltText(c, path, left, changes) == right
  {
    hide TextCheck, Spliced, Picked, ByStart, Put, NewValue, Faithful, FaithfulFor;
    TicketAcceptedIsRewrite(c, path, left, right, fm);
    var w :| IsState(w) && right == PutState(left, fm, w);
    ReadAgain(c.read, left, IsLight(c.registry, path), fm, w);
    if fm.state == w { PutOwn(left, StateEdit(fm)); }
    TicketRewriteAccepted(c, path, left, fm, w);
    StateTold(path, fm, w, changes);
    TicketMarksOf(c, path, left);
    StateEdits(fm);
    OneByStart(changes, path, StateMark(fm));
    OneSpliced(left, Edit(fm.start, fm.end, fm.state), w);
  }

  lemma StateTold(path: string, fm: Front, w: string, changes: seq<Change>)
    requires Holds(changes, path, [Change(path, State, None, None, Some(fm.id), fm.state, w)])
    ensures NewValue(changes, path, StateMark(fm)) == Some(w)
  {
    hide NewValue;
    var told := Change(path, State, None, None, Some(fm.id), fm.state, w);
    assert told in [told];
    assert told in changes && Tells(told, path, StateMark(fm));
    forall ch | ch in changes && Tells(ch, path, StateMark(fm)) ensures ch == told { assert ch in [told]; }
  }

  // ----- the tree

  lemma {:induction false} ComparedPath(path: string, was: seq<Mark>, now: seq<Mark>, ch: Change)
    requires Compared(path, was, now).Fine? && ch in Compared(path, was, now).changes
    ensures ch.path == path
    decreases |now|
  {
    if was != [] && now != [] && Compared(path, was[1..], now[1..]).Fine? && ch in Compared(path, was[1..], now[1..]).changes {
      ComparedPath(path, was[1..], now[1..], ch);
    }
  }

  lemma OwnPath(c: Context, before: Tree, after: Tree, path: string, ch: Change)
    requires path in before && path in after && Check(c, before, after, path).Fine? && ch in Check(c, before, after, path).changes
    ensures ch.path == path
  {
    hide Compared, MarksOf;
    var left, right := before[path].text, after[path].text;
    ComparedPath(path, MarksOf(c, path, left).value, MarksOf(c, path, right).value, ch);
  }

  lemma {:induction false} ReportedHas(c: Context, before: Tree, after: Tree, paths: seq<string>, path: string, ch: Change)
    requires forall p :: p in paths ==> p in before && p in after && Check(c, before, after, p).Fine?
    requires ch.path == path
    ensures ch in Reported(c, before, after, paths) <==> path in paths && ch in Check(c, before, after, path).changes
  {
    hide Check;
    if paths != [] {
      ReportedHas(c, before, after, paths[1..], path, ch);
      if ch in Check(c, before, after, paths[0]).changes { OwnPath(c, before, after, paths[0], ch); }
      assert path in paths <==> path == paths[0] || path in paths[1..];
    }
  }

  /** A changed plan that the scanner reads safely, and whose tokens are told apart. */
  ghost predicate Legible(c: Context, before: Tree, after: Tree, path: string) {
    path in before && path in after && before[path] != after[path] && before[path].Utf8? && IsPlan(c.registry, path) ==>
      Readable(c.g, before[path].text) && ToldApart(Tokens(Scan(c.g, before[path].text)))
  }

  lemma FileRebuilt(c: Context, before: Tree, after: Tree, path: string, changes: seq<Change>)
    requires path in before && path in after && Faithful(c.read) && Legible(c, before, after, path)
    requires Check(c, before, after, path).Fine? && Holds(changes, path, Check(c, before, after, path).changes)
    ensures RebuiltFile(c, path, before[path], changes) == after[path]
  {
    hide TextCheck, RebuiltText, Scan, Tokens, Readable, ToldApart, Faithful;
    if before[path] == after[path] {
      UntoldFile(c, path, before[path], changes);
    } else {
      var left, right := before[path].text, after[path].text;
      if IsPlan(c.registry, path) {
        PlanRebuilt(c, path, left, right, changes);
      } else {
        ReadsTicket(c, path, left, right);
        TicketRebuilt(c, path, left, right, c.read(left, IsLight(c.registry, path)).value, changes);
      }
    }
  }

  lemma ReadsTicket(c: Context, path: string, left: string, right: string)
    requires !IsPlan(c.registry, path) && TextCheck(c, path, left, right).Fine?
    ensures c.read(left, IsLight(c.registry, path)).Some?
  {
    hide Compared, Gaps;
  }

  /** An accepted closure's report, written over the tree before it, gives the tree after it. */
  lemma AcceptedRebuilds(c: Context, before: Tree, after: Tree, modes: Option<Modes>, paths: seq<string>)
    requires forall p :: p in paths <==> p in before.Keys + after.Keys
    requires Delta(c, before, after, modes, paths).Accepted? && Faithful(c.read)
    requires forall p :: p in before ==> Legible(c, before, after, p)
    ensures after == Rebuilt(c, before, Delta(c, before, after, modes, paths).changes)
  {
    hide Check, Legible, Delta, Reported, RebuiltFile, Faithful;
    DeltaIff(c, before, after, modes, paths);
    var changes := Delta(c, before, after, modes, paths).changes;
    forall p | p in before ensures RebuiltFile(c, p, before[p], changes) == after[p] {
      forall ch: Change | ch.path == p ensures ch in changes <==> ch in Check(c, before, after, p).changes {
        ReportedHas(c, before, after, paths, p, ch);
      }
      FileRebuilt(c, before, after, p, changes);
    }
  }

  // ----- when a report can be rebuilt

  lemma ReportDetermines(path: string, tokens: seq<Token>, news: seq<string>, others: seq<string>)
    requires |news| == |others| == |tokens| && ToldApart(tokens) && Differing(path, tokens, news) == Differing(path, tokens, others)
    ensures news == others
  {
    hide Differing, NewValue, ToldApart;
    var changes := Differing(path, tokens, news);
    forall i | 0 <= i < |tokens| ensures news[i] == others[i] {
      ValueTold(path, tokens, news, changes, i);
      ValueTold(path, tokens, others, changes, i);
    }
  }

  function Olds(tokens: seq<Token>): (v: seq<string>)
    ensures |v| == |tokens| && forall i :: 0 <= i < |v| ==> v[i] == tokens[i].value
  {
    seq(|tokens|, i requires 0 <= i < |tokens| => tokens[i].value)
  }

  lemma {:induction false} NoneDiffer(path: string, tokens: seq<Token>)
    ensures Differing(path, tokens, Olds(tokens)) == []
  {
    if tokens != [] {
      assert Olds(tokens)[1..] == Olds(tokens[1..]);
      NoneDiffer(path, tokens[1..]);
    }
  }

  lemma {:induction false} OneDiffers(path: string, tokens: seq<Token>, i: nat, w: string)
    requires i < |tokens| && w != tokens[i].value
    ensures Differing(path, tokens, Olds(tokens)[i := w]) == [Changed(path, tokens[i], w)]
    decreases |tokens|
  {
    var news := Olds(tokens)[i := w];
    if i == 0 {
      assert news[1..] == Olds(tokens[1..]);
      NoneDiffer(path, tokens[1..]);
    } else {
      assert news[1..] == Olds(tokens[1..])[i - 1 := w];
      OneDiffers(path, tokens[1..], i - 1, w);
    }
  }

  lemma AlikeChanges(path: string, a: Token, b: Token, w: string)
    requires Alike(a, b)
    ensures Changed(path, a, w) == Changed(path, b, w)
  {}

  /** Two texts that the comparison accepts after `left`, with one report between them. */
  ghost predicate Ambiguous(c: Context, path: string, left: string, one: string, other: string) {
    && one != other && TextCheck(c, path, left, one).Fine? && TextCheck(c, path, left, other) == TextCheck(c, path, left, one)
  }

  lemma RewrittenApart(g: Grammar, html: string, news: seq<string>, others: seq<string>)
    requires Readable(g, html) && |news| == |others| == |Tokens(Scan(g, html))| && news != others
    requires (forall k :: 0 <= k < |news| ==> Plain(news[k])) && forall k :: 0 <= k < |others| ==> Plain(others[k])
    ensures Rewritten(g, html, news) != Rewritten(g, html, others)
  {
    hide Scan, Tokens, Rewritten, Gaps, Readable, Plain;
    RewrittenTokens(g, html, news);
    RewrittenTokens(g, html, others);
    var i :| 0 <= i < |news| && news[i] != others[i];
  }

  lemma AllowedOne(tokens: seq<Token>, i: nat, w: string)
    requires i < |tokens| && (w == "x" || w == "wip")
    ensures AllowedAll(tokens, Olds(tokens)[i := w])
  {}

  lemma AlikeIsAmbiguous(c: Context, path: string, left: string, i: nat, j: nat)
    requires IsPlan(c.registry, path) && Readable(c.g, left)
    requires var tokens := Tokens(Scan(c.g, left)); i < |tokens| && j < |tokens| && i != j && Alike(tokens[i], tokens[j])
    ensures exists one, other :: Ambiguous(c, path, left, one, other)
  {
    hide Scan, Tokens, Rewritten, TextCheck, Differing, AllowedAll, Readable, Changed;
    var tokens := Tokens(Scan(c.g, left));
    var w := if tokens[i].value == "x" then "wip" else "x";
    NotX();
    var news, others := Olds(tokens)[i := w], Olds(tokens)[j := w];
    assert news[i] != others[i];
    PlanIsLaid(c.g, left);
    AllowedOne(tokens, i, w);
    AllowedOne(tokens, j, w);
    AllowedPlain(c.g, left, news);
    AllowedPlain(c.g, left, others);
    PlanRewriteAccepted(c, path, left, news);
    PlanRewriteAccepted(c, path, left, others);
    OneDiffers(path, tokens, i, w);
    OneDiffers(path, tokens, j, w);
    AlikeChanges(path, tokens[i], tokens[j], w);
    RewrittenApart(c.g, left, news, others);
    assert Ambiguous(c, path, left, Rewritten(c.g, left, news), Rewritten(c.g, left, others));
  }

  lemma NotX()
    ensures "wip" != "x"
  {}

  lemma AllowedPlain(g: Grammar, html: string, news: seq<string>)
    requires Readable(g, html) && AllowedAll(Tokens(Scan(g, html)), news)
    ensures forall k :: 0 <= k < |news| ==> Plain(news[k])
  {
    hide Scan, Tokens, AllowedAll, Plain;
    PlanIsLaid(g, html);
    AllowedIsPlain(html, Tokens(Scan(g, html)), news);
  }

  /** A plan's report determines the plan after it exactly when no two of its tokens share a place and a value. */
  lemma AmbiguousIff(c: Context, path: string, left: string)
    requires IsPlan(c.registry, path) && Readable(c.g, left)
    ensures (exists one, other :: Ambiguous(c, path, left, one, other)) <==> !ToldApart(Tokens(Scan(c.g, left)))
  {
    hide Scan, Tokens, Rewritten, TextCheck, Differing, AllowedAll, Readable;
    var tokens := Tokens(Scan(c.g, left));
    if one, other :| Ambiguous(c, path, left, one, other) {
      PlanAcceptedIsRewrite(c, path, left, one);
      PlanAcceptedIsRewrite(c, path, left, other);
      var news, others := Values(Spans(Tokens(Scan(c.g, one)))), Values(Spans(Tokens(Scan(c.g, other))));
      PlanRewriteAccepted(c, path, left, news);
      PlanRewriteAccepted(c, path, left, others);
      if ToldApart(tokens) { ReportDetermines(path, tokens, news, others); }
    }
    if !ToldApart(tokens) {
      var i, j :| 0 <= i < |tokens| && 0 <= j < |tokens| && Alike(tokens[i], tokens[j]) && i != j;
      AlikeIsAmbiguous(c, path, left, i, j);
    }
  }
}
