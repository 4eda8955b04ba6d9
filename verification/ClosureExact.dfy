/** The closure proof is exact: what it accepts, and what it reports, are precisely rewritten status values. */
module ClosureExact {
  import opened Text
  import opened PlanScan
  import opened Splice
  import opened Holes
  import opened Rewrite
  import opened ScanOrder
  import opened ClosureTree
  import opened ClosureDelta

  // ----- the tree

  ghost function Reported(c: Context, before: Tree, after: Tree, paths: seq<string>): seq<Change>
    requires forall p :: p in paths ==> p in before && p in after
  {
    if paths == [] then []
    else (match Check(c, before, after, paths[0]) case Fine(own) => own case Bad(_) => []) + Reported(c, before, after, paths[1..])
  }

  lemma {:induction false} CheckedIff(c: Context, before: Tree, after: Tree, paths: seq<string>)
    requires forall p :: p in paths ==> p in before && p in after
    ensures Checked(c, before, after, paths).Accepted? <==> forall p :: p in paths ==> Check(c, before, after, p).Fine?
    ensures Checked(c, before, after, paths).Accepted? ==> Checked(c, before, after, paths).changes == Reported(c, before, after, paths)
  {
    if paths != [] {
      CheckedIff(c, before, after, paths[1..]);
      forall p | p in paths ensures p == paths[0] || p in paths[1..] {}
    }
  }

  /** A closure is accepted iff no path appears or disappears, no mode changes, every file passes, and the
      after tree agrees; the report is every file's changes in path order. */
  lemma DeltaIff(c: Context, before: Tree, after: Tree, modes: Option<Modes>, paths: seq<string>)
    requires forall p :: p in paths <==> p in before.Keys + after.Keys
    ensures Delta(c, before, after, modes, paths).Accepted? <==>
      && before.Keys == after.Keys
      && (forall p :: p in before ==> ModeKept(modes, p))
      && (forall p :: p in before && p in after ==> Check(c, before, after, p).Fine?)
      && c.agreement(after) == Holds
    ensures Delta(c, before, after, modes, paths).Accepted? ==>
      (forall p :: p in paths ==> p in before && p in after)
      && Delta(c, before, after, modes, paths).changes == Reported(c, before, after, paths)
  {
    PairedOrNot(before, after, modes, paths);
    if FirstUnpaired(before, after, modes, paths).None? {
      CheckedIff(c, before, after, paths);
      forall p ensures p in before <==> p in after {
        if p in before || p in after { assert p in paths; }
      }
      forall p | p in before ensures p in paths && ModeKept(modes, p) { assert p in before.Keys + after.Keys; }
    } else {
      var p :| p in paths && !(p in before && p in after && ModeKept(modes, p));
      assert p in before.Keys + after.Keys;
      if before.Keys == after.Keys { assert p in before && p in after && !ModeKept(modes, p); }
    }
  }

  // ----- one comparison

  lemma {:induction false} ComparedIff(path: string, was: seq<Mark>, now: seq<Mark>)
    requires |was| == |now|
    ensures Compared(path, was, now).Fine? <==>
      forall k :: 0 <= k < |now| ==> was[k].value == now[k].value || Allowed(now[k].kind, now[k].value)
    decreases |now|
  {
    if was != [] {
      ComparedIff(path, was[1..], now[1..]);
      if Compared(path, was[1..], now[1..]).Fine? {
        forall k | 1 <= k < |now| ensures was[k].value == now[k].value || Allowed(now[k].kind, now[k].value) {
          assert was[1..][k - 1] == was[k] && now[1..][k - 1] == now[k];
        }
      } else {
        var k :| 0 <= k < |now[1..]| && !(was[1..][k].value == now[1..][k].value || Allowed(now[1..][k].kind, now[1..][k].value));
        assert was[k + 1] == was[1..][k] && now[k + 1] == now[1..][k];
      }
    }
  }

  ghost predicate AllowedAll(tokens: seq<Token>, news: seq<string>) {
    |news| == |tokens| && forall k :: 0 <= k < |tokens| ==> news[k] == tokens[k].value || Allowed(TokenMark(tokens[k]).kind, news[k])
  }

  /** The report a rewriting of these tokens owes: one change for each value that differs, in text order. */
  function Differing(path: string, tokens: seq<Token>, news: seq<string>): seq<Change>
    requires |news| == |tokens|
  {
    if tokens == [] then []
    else
      var rest := Differing(path, tokens[1..], news[1..]);
      if tokens[0].value == news[0] then rest
      else [ChangeOf(path, TokenMark(tokens[0]), TokenMark(tokens[0].(value := news[0])))] + rest
  }

  ghost predicate SameIdentity(tokens: seq<Token>, tokens': seq<Token>, news: seq<string>) {
    |tokens'| == |tokens| == |news|
    && forall k :: 0 <= k < |tokens| ==>
      tokens'[k].value == news[k] && tokens'[k].milestone == tokens[k].milestone && tokens'[k].task == tokens[k].task
  }

  lemma {:induction false} ComparedTokens(path: string, tokens: seq<Token>, tokens': seq<Token>, news: seq<string>)
    requires SameIdentity(tokens, tokens', news) && AllowedAll(tokens, news)
    ensures Compared(path, Marks(tokens), Marks(tokens')) == Fine(Differing(path, tokens, news))
    decreases |tokens|
  {
    if tokens != [] {
      ComparedTokens(path, tokens[1..], tokens'[1..], news[1..]);
      assert Marks(tokens)[1..] == Marks(tokens[1..]) && Marks(tokens')[1..] == Marks(tokens'[1..]);
    }
  }

  // ----- rewriting a plan

  /** The plan text with its k-th status value (in text order) replaced by news[k]. */
  function Rewritten(g: Grammar, html: string, news: seq<string>): string
    requires |news| == |Tokens(Scan(g, html))|
  {
    Weave(Gaps(html, Spans(Tokens(Scan(g, html))), 0), news)
  }

  function ByPlace(tokens: seq<Token>, news: seq<string>): map<nat, string>
    requires |news| == |tokens|
  {
    if tokens == [] then map[] else ByPlace(tokens[1..], news[1..])[tokens[0].valueStart := news[0]]
  }

  lemma {:induction false} ByPlaceReads(html: string, tokens: seq<Token>, news: seq<string>, lo: nat, k: nat)
    requires Laid(html, tokens, lo, |html|) && |news| == |tokens| && k < |tokens|
    ensures tokens[k].valueStart in ByPlace(tokens, news) && ByPlace(tokens, news)[tokens[k].valueStart] == news[k]
    decreases |tokens|
  {
    TokensInOrder(tokens, lo, |html|);
    if k > 0 {
      assert tokens[0] in tokens && TokenReads(html, tokens[0]);
      forall x | x in tokens[1..] ensures x in tokens {}
      ByPlaceReads(html, tokens[1..], news[1..], tokens[0].valueEnd + 1, k - 1);
      assert tokens[1..][k - 1] == tokens[k];
    }
  }

  function Placing(m: map<nat, string>): Token -> string {
    (k: Token) => if k.valueStart in m then m[k.valueStart] else ""
  }

  lemma {:induction false} SamePlanTokens(x: seq<Section>, y: seq<Section>, f: Token -> string)
    requires SamePlan(x, y, f)
    ensures SameTokens(Tokens(x), Tokens(y), f)
  {
    if x != [] {
      SamePlanTokens(x[1..], y[1..], f);
      SameTaskTokens(x[0].tasks, y[0].tasks, f);
      SameAppend([x[0].head], [y[0].head], TaskTokens(x[0].tasks), TaskTokens(y[0].tasks), f);
      SameAppend([x[0].head] + TaskTokens(x[0].tasks), [y[0].head] + TaskTokens(y[0].tasks), Tokens(x[1..]), Tokens(y[1..]), f);
    }
  }

  lemma {:induction false} SameTaskTokens(x: seq<TaskSlice>, y: seq<TaskSlice>, f: Token -> string)
    requires SameTasks(x, y, f)
    ensures SameTokens(TaskTokens(x), TaskTokens(y), f)
  {
    if x != [] {
      SameTaskTokens(x[1..], y[1..], f);
      SameAppend(x[0].tokens, y[0].tokens, TaskTokens(x[1..]), TaskTokens(y[1..]), f);
    }
  }

  lemma SameAppend(x: seq<Token>, y: seq<Token>, x': seq<Token>, y': seq<Token>, f: Token -> string)
    requires SameTokens(x, y, f) && SameTokens(x', y', f)
    ensures SameTokens(x + x', y + y', f)
  {}

  lemma AsFunction(g: Grammar, html: string, news: seq<string>)
    requires Readable(g, html) && |news| == |Tokens(Scan(g, html))|
    ensures var tokens := Tokens(Scan(g, html)); Mapped(tokens, Placing(ByPlace(tokens, news))) == news
  {
    hide Scan, Tokens, Gaps, Joints;
    var tokens := Tokens(Scan(g, html));
    PlanIsLaid(g, html);
    var f := Placing(ByPlace(tokens, news));
    forall k | 0 <= k < |tokens| ensures f(tokens[k]) == news[k] { ByPlaceReads(html, tokens, news, 0, k); }
  }

  lemma SameAsIdentity(x: seq<Token>, y: seq<Token>, f: Token -> string)
    requires SameTokens(x, y, f)
    ensures SameIdentity(x, y, Mapped(x, f))
  {
    forall k | 0 <= k < |x| ensures y[k].value == Mapped(x, f)[k] && y[k].milestone == x[k].milestone && y[k].task == x[k].task {
      assert SameToken(x[k], y[k], f);
    }
  }

  lemma PlainAgain(tokens: seq<Token>, tokens': seq<Token>, news: seq<string>)
    requires SameIdentity(tokens, tokens', news) && forall k :: 0 <= k < |news| ==> Plain(news[k])
    ensures PlainTokens(tokens')
  {
    forall k | k in tokens' ensures '<' !in k.value {
      var i :| 0 <= i < |tokens'| && tokens'[i] == k;
      assert Plain(news[i]);
    }
  }

  lemma WovenGaps(gaps: seq<string>, values: seq<string>)
    requires |gaps| == |values| + 1
    ensures Gaps(Weave(gaps, values), Placed(gaps, values, 0), 0) == gaps
  {
    GapsOfPlaced("", gaps, values);
    assert "" + Weave(gaps, values) == Weave(gaps, values);
  }

  /** Rewriting a plan's values leaves a plan whose tokens are the same ones, holding the new values. */
  lemma RewrittenTokens(g: Grammar, html: string, news: seq<string>)
    requires Readable(g, html) && |news| == |Tokens(Scan(g, html))| && forall k :: 0 <= k < |news| ==> Plain(news[k])
    ensures SameIdentity(Tokens(Scan(g, html)), Tokens(Scan(g, Rewritten(g, html, news))), news)
    ensures Gaps(Rewritten(g, html, news), Spans(Tokens(Scan(g, Rewritten(g, html, news)))), 0)
            == Gaps(html, Spans(Tokens(Scan(g, html))), 0)
    ensures Readable(g, Rewritten(g, html, news))
  {
    var tokens := Tokens(Scan(g, html));
    var f := Placing(ByPlace(tokens, news));
    AsFunction(g, html, news);
    forall k | k in tokens ensures Plain(f(k)) {
      var i :| 0 <= i < |tokens| && tokens[i] == k;
      assert Mapped(tokens, f)[i] == news[i];
    }
    ScanAfterWriting(g, html, f);
    SamePlanTokens(Scan(g, html), Scan(g, Rewritten(g, html, news)), f);
    SameAsIdentity(tokens, Tokens(Scan(g, Rewritten(g, html, news))), f);
    PlainAgain(tokens, Tokens(Scan(g, Rewritten(g, html, news))), news);
    WovenGaps(Gaps(html, Spans(tokens), 0), news);
  }

  lemma EditsOfMarks(tokens: seq<Token>)
    ensures Edits(Marks(tokens)) == Spans(tokens)
  {}

  lemma TextCheckPlan(c: Context, path: string, left: string, right: string)
    requires IsPlan(c.registry, path) && Readable(c.g, left) && Readable(c.g, right)
    ensures TextCheck(c, path, left, right) ==
      if Gaps(left, Spans(Tokens(Scan(c.g, left))), 0) != Gaps(right, Spans(Tokens(Scan(c.g, right))), 0) then Bad(Content)
      else Compared(path, Marks(Tokens(Scan(c.g, left))), Marks(Tokens(Scan(c.g, right))))
  {
    SortedIsTextOrder(c.g, left);
    SortedIsTextOrder(c.g, right);
    EditsOfMarks(Tokens(Scan(c.g, left)));
    EditsOfMarks(Tokens(Scan(c.g, right)));
  }

  lemma AllowedIsPlain(html: string, tokens: seq<Token>, news: seq<string>)
    requires Laid(html, tokens, 0, |html|) && PlainTokens(tokens) && AllowedAll(tokens, news)
    ensures forall k :: 0 <= k < |news| ==> Plain(news[k])
  {
    forall k | 0 <= k < |news| ensures Plain(news[k]) {
      assert tokens[k] in tokens && TokenReads(html, tokens[k]);
    }
  }

  /** Every rewriting within the vocabulary is accepted, and reported as exactly the values that differ. */
  lemma PlanRewriteAccepted(c: Context, path: string, html: string, news: seq<string>)
    requires IsPlan(c.registry, path) && Readable(c.g, html) && AllowedAll(Tokens(Scan(c.g, html)), news)
    ensures TextCheck(c, path, html, Rewritten(c.g, html, news)) == Fine(Differing(path, Tokens(Scan(c.g, html)), news))
  {
    PlanIsLaid(c.g, html);
    AllowedIsPlain(html, Tokens(Scan(c.g, html)), news);
    RewrittenTokens(c.g, html, news);
    TextCheckPlan(c, path, html, Rewritten(c.g, html, news));
    ComparedTokens(path, Tokens(Scan(c.g, html)), Tokens(Scan(c.g, Rewritten(c.g, html, news))), news);
  }

  ghost predicate IsRewriting(g: Grammar, left: string, right: string, news: seq<string>) {
    |news| == |Tokens(Scan(g, left))| && AllowedAll(Tokens(Scan(g, left)), news) && right == Rewritten(g, left, news)
  }

  lemma AcceptedIsReadable(c: Context, path: string, left: string, right: string)
    requires IsPlan(c.registry, path) && Readable(c.g, left) && TextCheck(c, path, left, right).Fine?
    ensures Readable(c.g, right)
  {
    var x, y := SortedTokens(c.g, left), SortedTokens(c.g, right);
    SortedElements(c.g, left);
    SortedElements(c.g, right);
    assert |x| == |y| by { assert |Gaps(left, Edits(Marks(x)), 0)| == |Gaps(right, Edits(Marks(y)), 0)|; }
    StaysPlain(path, x, y);
    assert PlainTokens(Tokens(Scan(c.g, right)));
  }

  lemma StaysPlain(path: string, x: seq<Token>, y: seq<Token>)
    requires |x| == |y| && Compared(path, Marks(x), Marks(y)).Fine? && PlainTokens(x)
    ensures PlainTokens(y)
  {
    ComparedIff(path, Marks(x), Marks(y));
    forall k | k in y ensures '<' !in k.value {
      var i :| 0 <= i < |y| && y[i] == k;
      assert x[i] in x;
      assert Marks(x)[i].value == Marks(y)[i].value || Allowed(Marks(y)[i].kind, Marks(y)[i].value);
    }
  }

  /** Whatever the comparison accepts is such a rewriting. */
  lemma PlanAcceptedIsRewrite(c: Context, path: string, left: string, right: string)
    requires IsPlan(c.registry, path) && Readable(c.g, left) && TextCheck(c, path, left, right).Fine?
    ensures Readable(c.g, right)
    ensures IsRewriting(c.g, left, right, Values(Spans(Tokens(Scan(c.g, right)))))
  {
    AcceptedIsReadable(c, path, left, right);
    TextCheckPlan(c, path, left, right);
    PlanIsLaid(c.g, right);
    var x, y := Tokens(Scan(c.g, left)), Tokens(Scan(c.g, right));
    assert |x| == |y| by { assert |Gaps(left, Spans(x), 0)| == |Gaps(right, Spans(y), 0)|; }
    AllowedFromMarks(path, x, y);
  }

  lemma AllowedFromMarks(path: string, x: seq<Token>, y: seq<Token>)
    requires |x| == |y| && Compared(path, Marks(x), Marks(y)).Fine?
    ensures AllowedAll(x, Values(Spans(y)))
  {
    ComparedIff(path, Marks(x), Marks(y));
    forall k | 0 <= k < |x| ensures Values(Spans(y))[k] == x[k].value || Allowed(TokenMark(x[k]).kind, Values(Spans(y))[k]) {
      assert Marks(x)[k].value == Marks(y)[k].value || Allowed(Marks(y)[k].kind, Marks(y)[k].value);
    }
  }

  /** The plan comparison accepts exactly the rewritings of status values within the vocabulary. */
  lemma PlanCheckExact(c: Context, path: string, left: string, right: string)
    requires IsPlan(c.registry, path) && Readable(c.g, left)
    ensures TextCheck(c, path, left, right).Fine? <==> exists news :: IsRewriting(c.g, left, right, news)
  {
    if TextCheck(c, path, left, right).Fine? {
      PlanAcceptedIsRewrite(c, path, left, right);
      assert IsRewriting(c.g, left, right, Values(Spans(Tokens(Scan(c.g, right)))));
    }
    forall news | IsRewriting(c.g, left, right, news) ensures TextCheck(c, path, left, right).Fine? {
      PlanRewriteAccepted(c, path, left, news);
    }
  }

  // ----- rewriting a ticket

  lemma OneSpan(text: string, e: Edit)
    requires e.start <= e.end <= |text|
    ensures |Gaps(text, [e], 0)| == 2
    ensures Gaps(text, [e], 0)[0] == text[..e.start] && Gaps(text, [e], 0)[1] == text[e.end..]
  {
    var es, rest := [e], [];
    assert es[1..] == rest;
    assert Gaps(text, rest, e.end)[0] == text[e.end..];
    assert Gaps(text, es, 0)[1] == Gaps(text, rest, e.end)[0];
  }

  lemma PutBetween(left: string, e: Edit, w: string)
    requires e.start <= e.end <= |left|
    ensures var right := Put(left, Edit(e.start, e.end, w)); var e' := Edit(e.start, e.start + |w|, w);
      e'.end <= |right| && Gaps(right, [e'], 0) == Gaps(left, [e], 0)
  {
    var right := Put(left, Edit(e.start, e.end, w));
    OneSpan(left, e);
    OneSpan(right, Edit(e.start, e.start + |w|, w));
    assert right[..e.start] == left[..e.start] && right[e.start + |w|..] == left[e.end..];
  }

  lemma BetweenIsPut(left: string, right: string, e: Edit, e': Edit)
    requires e.start <= e.end <= |left| && e'.start <= e'.end <= |right| && e'.value == right[e'.start..e'.end]
    requires Gaps(left, [e], 0) == Gaps(right, [e'], 0)
    ensures right == Put(left, Edit(e.start, e.end, e'.value))
  {
    OneSpan(left, e);
    OneSpan(right, e');
    assert Gaps(left, [e], 0)[0] == Gaps(right, [e'], 0)[0] && Gaps(left, [e], 0)[1] == Gaps(right, [e'], 0)[1];
    assert right == right[..e'.start] + right[e'.start..e'.end] + right[e'.end..];
  }

  function StateMark(fm: Front): Mark {
    Mark(fm.start, fm.end, fm.state, State, None, None, Some(fm.id))
  }

  lemma StateEdits(fm: Front)
    ensures Edits([StateMark(fm)]) == [Edit(fm.start, fm.end, fm.state)]
  {}

  lemma OneCompared(path: string, was: Mark, now: Mark)
    ensures Compared(path, [was], [now]) ==
      if was.value == now.value then Fine([])
      else if Allowed(now.kind, now.value) then Fine([ChangeOf(path, was, now)]) else Bad(Vocabulary)
  {
    assert [was][1..] == [] && [now][1..] == [];
  }

  lemma TicketMarksOf(c: Context, path: string, text: string)
    requires !IsPlan(c.registry, path) && c.read(text, IsLight(c.registry, path)).Some?
    ensures MarksOf(c, path, text) == Some([StateMark(c.read(text, IsLight(c.registry, path)).value)])
  {}

  function StateEdit(fm: Front): Edit {
    Edit(fm.start, fm.end, fm.state)
  }

  lemma TextCheckTicket(c: Context, path: string, left: string, right: string, fm: Front, fm': Front)
    requires !IsPlan(c.registry, path)
    requires c.read(left, IsLight(c.registry, path)) == Some(fm) && c.read(right, IsLight(c.registry, path)) == Some(fm')
    ensures TextCheck(c, path, left, right) ==
      if Gaps(left, [StateEdit(fm)], 0) != Gaps(right, [StateEdit(fm')], 0) then Bad(Content)
      else if fm.state == fm'.state then Fine([])
      else if IsState(fm'.state) then Fine([Change(path, State, None, None, Some(fm'.id), fm.state, fm'.state)]) else Bad(Vocabulary)
  {
    TicketMarksOf(c, path, left);
    TicketMarksOf(c, path, right);
    StateEdits(fm);
    StateEdits(fm');
    OneCompared(path, StateMark(fm), StateMark(fm'));
  }

  lemma ReadAgain(read: Reader, text: string, light: bool, fm: Front, w: string)
    requires Faithful(read) && read(text, light) == Some(fm) && IsState(w)
    ensures fm.start <= fm.end <= |text| && fm.state == text[fm.start..fm.end]
    ensures read(PutState(text, fm, w), light) == Some(Front(fm.id, fm.start, fm.start + |w|, w))
  {
    assert FaithfulFor(read, text, light);
    assert RewritesTo(read, text, light, fm, w);
  }

  /** Rewriting a ticket's state word is accepted and reported as that one change. */
  lemma TicketRewriteAccepted(c: Context, path: string, text: string, fm: Front, w: string)
    requires !IsPlan(c.registry, path) && Faithful(c.read) && c.read(text, IsLight(c.registry, path)) == Some(fm) && IsState(w)
    ensures TextCheck(c, path, text, PutState(text, fm, w)) ==
      Fine(if fm.state == w then [] else [Change(path, State, None, None, Some(fm.id), fm.state, w)])
  {
    ReadAgain(c.read, text, IsLight(c.registry, path), fm, w);
    TextCheckTicket(c, path, text, PutState(text, fm, w), fm, Front(fm.id, fm.start, fm.start + |w|, w));
    PutBetween(text, StateEdit(fm), w);
  }

  lemma TicketAcceptedIsRewrite(c: Context, path: string, left: string, right: string, fm: Front)
    requires !IsPlan(c.registry, path) && Faithful(c.read) && left != right && c.read(left, IsLight(c.registry, path)) == Some(fm)
    requires TextCheck(c, path, left, right).Fine?
    ensures exists w :: IsState(w) && right == PutState(left, fm, w)
  {
    var light := IsLight(c.registry, path);
    assert c.read(right, light).Some?;
    var fm' := c.read(right, light).value;
    ReadAgain(c.read, left, light, fm, "wip");
    ReadAgain(c.read, right, light, fm', "wip");
    TextCheckTicket(c, path, left, right, fm, fm');
    BetweenIsPut(left, right, StateEdit(fm), StateEdit(fm'));
    if fm'.state == fm.state { PutOwn(left, StateEdit(fm)); }
    assert IsState(fm'.state) && right == PutState(left, fm, fm'.state);
  }

  lemma PutOwn(text: string, e: Edit)
    requires e.start <= e.end <= |text| && e.value == text[e.start..e.end]
    ensures Put(text, e) == text
  {
    assert text == text[..e.start] + text[e.start..e.end] + text[e.end..];
  }

  /** The ticket comparison accepts a difference exactly when it is another state word in the same place. */
  lemma TicketCheckExact(c: Context, path: string, left: string, right: string, fm: Front)
    requires !IsPlan(c.registry, path) && Faithful(c.read) && left != right && c.read(left, IsLight(c.registry, path)) == Some(fm)
    ensures TextCheck(c, path, left, right).Fine? <==> exists w :: IsState(w) && right == PutState(left, fm, w)
  {
    if TextCheck(c, path, left, right).Fine? {
      TicketAcceptedIsRewrite(c, path, left, right, fm);
    }
    forall w | IsState(w) && right == PutState(left, fm, w) ensures TextCheck(c, path, left, right).Fine? {
      TicketRewriteAccepted(c, path, left, fm, w);
    }
  }
}
