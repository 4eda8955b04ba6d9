/** What the closure proof refuses, for which path and why, and what it reports: said on paths, modes, texts and values alone. */
module ClosureRules {
  import opened Text
  import opened PlanScan
  import opened Splice
  import opened Holes
  import opened Rewrite
  import opened ScanOrder
  import opened Order
  import opened ClosureTree
  import opened ClosureDelta
  import opened ClosureExact

  // ----- what may change, and to what

  /** The words a closure may write: a ticket's state, or a plan token's mark. */
  ghost predicate Word(kind: Kind, value: string) {
    match kind
    case State => value in {"todo", "wip", "done"}
    case _ => value in {"", "wip", "x"}
  }

  lemma WordIff(kind: Kind, value: string)
    ensures Allowed(kind, value) <==> Word(kind, value)
  {}

  /** A ticket's id: T or W and two digits. */
  ghost predicate TicketName(id: string) {
    exists letter, tens, ones :: id == [letter, tens, ones] && (letter == 'T' || letter == 'W') && '0' <= tens <= '9' && '0' <= ones <= '9'
  }

  lemma TicketNameIff(id: string)
    ensures IsTicketId(id) <==> TicketName(id)
  {
    if IsTicketId(id) { assert id == [id[0], id[1], id[2]]; }
  }

  /** Registered: a plan, a ticket file of a plan's folder, or a light ticket. */
  ghost predicate MayChange(registry: Registry, path: string) {
    || (exists s :: s in registry.plans && path == s.planPath)
    || (exists s, id :: s in registry.plans && TicketName(id) && path == s.ticketsPath + "/" + id + ".md")
    || (exists key :: key in registry.lights && registry.lights[key] == path)
  }

  lemma MayChangeIff(c: Context, path: string)
    ensures Registered(c, path) <==> MayChange(c.registry, path)
  {
    hide IsTicketId, TicketNamed, TicketName;
    forall s ensures TicketNamed(s, path) <==> exists id :: TicketName(id) && path == s.ticketsPath + "/" + id + ".md" {
      TicketNamedIff(s, path);
      forall id: string ensures IsTicketId(id) <==> TicketName(id) { TicketNameIff(id); }
      if IsTicketPath(s, path) { var id :| IsTicketId(id) && path == TicketPath(s, id); assert TicketName(id); }
      if id :| TicketName(id) && path == s.ticketsPath + "/" + id + ".md" { assert IsTicketId(id) && path == TicketPath(s, id); }
    }
  }

  // ----- one file

  ghost predicate OutOfWords(tokens: seq<Token>, news: seq<string>) {
    |news| == |tokens| && exists k :: 0 <= k < |tokens| && BadWord(tokens[k], news[k])
  }

  ghost predicate BadWord(k: Token, value: string) {
    value != k.value && !Word(if k.task.Some? then Status else Milestone, value)
  }

  ghost predicate InWords(tokens: seq<Token>, news: seq<string>) {
    |news| == |tokens| && forall k :: 0 <= k < |tokens| ==> !BadWord(tokens[k], news[k])
  }

  /** The new text is the old with only its values replaced by these. */
  ghost predicate OnlyValues(g: Grammar, left: string, right: string, news: seq<string>) {
    |news| == |Tokens(Scan(g, left))| && right == Rewritten(g, left, news) && forall k :: 0 <= k < |news| ==> Plain(news[k])
  }

  lemma InWordsIff(tokens: seq<Token>, news: seq<string>)
    requires |news| == |tokens|
    ensures AllowedAll(tokens, news) <==> InWords(tokens, news)
    ensures InWords(tokens, news) <==> !OutOfWords(tokens, news)
  {
    hide Allowed, Word;
    forall kind: Kind, value: string ensures Allowed(kind, value) <==> Word(kind, value) { WordIff(kind, value); }
  }

  /** A plan, both texts readable: fine where only values changed and each to a word; else content or vocabulary. */
  lemma PlanSays(c: Context, path: string, left: string, right: string)
    requires IsPlan(c.registry, path) && Readable(c.g, left) && Readable(c.g, right)
    ensures var tokens := Tokens(Scan(c.g, left));
      && (TextCheck(c, path, left, right).Fine? <==> exists news :: OnlyValues(c.g, left, right, news) && InWords(tokens, news))
      && (TextCheck(c, path, left, right) == Bad(Vocabulary) <==> exists news :: OnlyValues(c.g, left, right, news) && OutOfWords(tokens, news))
      && (TextCheck(c, path, left, right) == Bad(Content) <==> forall news :: !OnlyValues(c.g, left, right, news))
  {
    hide Scan, Tokens, TextCheck, Rewritten, Readable, InWords, OutOfWords, Word;
    var x, y := Tokens(Scan(c.g, left)), Tokens(Scan(c.g, right));
    var news := Values(Spans(y));
    TextCheckPlan(c, path, left, right);
    forall other | OnlyValues(c.g, left, right, other) ensures SameGapsThere(c.g, left, right) && other == news && |x| == |y| { OneRewriting(c, left, right, other); }
    if SameGapsThere(c.g, left, right) {
      ValuesPlain(c.g, left, right);
      KindsStay(c.g, left, right, news);
      ComparedSays(path, x, y);
      InWordsIff(x, news);
    }
  }

  ghost predicate SameGapsThere(g: Grammar, left: string, right: string) {
    Gaps(left, Spans(Tokens(Scan(g, left))), 0) == Gaps(right, Spans(Tokens(Scan(g, right))), 0)
  }

  lemma OneRewriting(c: Context, left: string, right: string, other: seq<string>)
    requires Readable(c.g, left) && OnlyValues(c.g, left, right, other)
    ensures SameGapsThere(c.g, left, right) && |Tokens(Scan(c.g, right))| == |Tokens(Scan(c.g, left))|
    ensures other == Values(Spans(Tokens(Scan(c.g, right))))
  {
    hide Scan, Tokens, Rewritten, Readable;
    RewrittenTokens(c.g, left, other);
  }

  lemma ValuesPlain(g: Grammar, left: string, right: string)
    requires Readable(g, left) && Readable(g, right) && SameGapsThere(g, left, right)
    ensures |Tokens(Scan(g, left))| == |Tokens(Scan(g, right))| && OnlyValues(g, left, right, Values(Spans(Tokens(Scan(g, right)))))
  {
    hide Scan, Tokens, Readable;
    var x, y := Tokens(Scan(g, left)), Tokens(Scan(g, right));
    PlanIsLaid(g, right);
    assert |x| == |y| by { assert |Gaps(left, Spans(x), 0)| == |Gaps(right, Spans(y), 0)|; }
    PlainIn(g, right);
    forall k | 0 <= k < |y| ensures Plain(Values(Spans(y))[k]) { assert y[k] in y && TokenReads(right, y[k]); }
  }

  lemma KindsStay(g: Grammar, left: string, right: string, news: seq<string>)
    requires Readable(g, left) && OnlyValues(g, left, right, news)
    ensures SameKinds(Tokens(Scan(g, left)), Tokens(Scan(g, right)))
  {
    hide Scan, Tokens, Rewritten, Readable;
    RewrittenTokens(g, left, news);
  }

  lemma PlainIn(g: Grammar, html: string)
    requires Readable(g, html)
    ensures forall k :: k in Tokens(Scan(g, html)) ==> '<' !in k.value
  {}

  lemma ComparedSays(path: string, x: seq<Token>, y: seq<Token>)
    requires |x| == |y|
    ensures Compared(path, Marks(x), Marks(y)).Fine? || Compared(path, Marks(x), Marks(y)) == Bad(Vocabulary)
    ensures Compared(path, Marks(x), Marks(y)).Fine? ==> AllowedAll(x, Values(Spans(y)))
    ensures SameKinds(x, y) && AllowedAll(x, Values(Spans(y))) ==> Compared(path, Marks(x), Marks(y)).Fine?
  {
    ComparedIff(path, Marks(x), Marks(y));
    OnlyVocabulary(path, Marks(x), Marks(y));
    if Compared(path, Marks(x), Marks(y)).Fine? { AllowedFromMarks(path, x, y); }
  }

  ghost predicate SameKinds(x: seq<Token>, y: seq<Token>) {
    |x| == |y| && forall k :: 0 <= k < |x| ==> TokenMark(x[k]).kind == TokenMark(y[k]).kind
  }

  lemma {:induction false} OnlyVocabulary(path: string, was: seq<Mark>, now: seq<Mark>)
    ensures Compared(path, was, now).Fine? || Compared(path, was, now) == Bad(Vocabulary)
    decreases |now|
  {
    if was != [] && now != [] { OnlyVocabulary(path, was[1..], now[1..]); }
  }

  /** A ticket: it must read on both sides; then fine, content or vocabulary by the text around the state word and the word itself. */
  lemma TicketSays(c: Context, path: string, left: string, right: string)
    requires !IsPlan(c.registry, path) && Faithful(c.read)
    ensures var was, now := c.read(left, IsLight(c.registry, path)), c.read(right, IsLight(c.registry, path));
      if was.None? || now.None? then TextCheck(c, path, left, right) == Bad(TreeFault)
      else var a, b := was.value, now.value;
        && a.start <= a.end <= |left| && b.start <= b.end <= |right|
        && var around := left[..a.start] == right[..b.start] && left[a.end..] == right[b.end..];
           TextCheck(c, path, left, right)
             == if !around then Bad(Content)
                else if a.state == b.state then Fine([])
                else if b.state in {"todo", "wip", "done"} then Fine([Change(path, State, None, None, Some(b.id), a.state, b.state)])
                else Bad(Vocabulary)
  {
    var was, now := c.read(left, IsLight(c.registry, path)), c.read(right, IsLight(c.registry, path));
    if was.Some? && now.Some? {
      assert FaithfulFor(c.read, left, IsLight(c.registry, path)) && FaithfulFor(c.read, right, IsLight(c.registry, path));
      TextCheckTicket(c, path, left, right, was.value, now.value);
      OneSpan(left, StateEdit(was.value));
      OneSpan(right, StateEdit(now.value));
    }
  }

  // ----- the report of a plan

  /** The report holds one change for each token whose value differs, in text order, with what identifies the token. */
  ghost predicate Reports(path: string, tokens: seq<Token>, news: seq<string>, report: seq<Change>, at: seq<nat>)
    requires |news| == |tokens|
  {
    && |at| == |report| && (forall m, n :: 0 <= m < n < |at| ==> at[m] < at[n])
    && (forall k: nat :: k in at <==> k < |tokens| && news[k] != tokens[k].value)
    && (forall m :: 0 <= m < |report| ==> at[m] < |tokens| && report[m] == TokenChange(path, tokens[at[m]], news[at[m]]))
  }

  ghost function TokenChange(path: string, k: Token, value: string): Change {
    Change(path, if k.task.Some? then Status else Milestone, Some(k.milestone), k.task, None, k.value, value)
  }

  lemma {:induction false} ReportIs(path: string, tokens: seq<Token>, news: seq<string>) returns (at: seq<nat>)
    requires |news| == |tokens|
    ensures Reports(path, tokens, news, Differing(path, tokens, news), at)
  {
    if tokens == [] {
      at := [];
    } else {
      var rest := ReportIs(path, tokens[1..], news[1..]);
      var later := seq(|rest|, k requires 0 <= k < |rest| => rest[k] + 1);
      at := if news[0] != tokens[0].value then [0] + later else later;
      forall k: nat ensures k in at <==> k < |tokens| && news[k] != tokens[k].value {
        if k > 0 {
          assert (k - 1 in rest) <==> k in later by {
            if k - 1 in rest { var m :| 0 <= m < |rest| && rest[m] == k - 1; assert later[m] == k; }
          }
          if k < |tokens| { assert tokens[1..][k - 1] == tokens[k] && news[1..][k - 1] == news[k]; }
        }
      }
      ReportStep(path, tokens, news, rest, later, at);
    }
  }

  ghost predicate TellsAt(path: string, tokens: seq<Token>, news: seq<string>, report: seq<Change>, at: seq<nat>, m: int)
    requires |news| == |tokens|
  {
    0 <= m < |report| && m < |at| && at[m] < |tokens| && report[m] == TokenChange(path, tokens[at[m]], news[at[m]])
  }

  lemma LaterTells(path: string, tokens: seq<Token>, news: seq<string>, tail: seq<Change>, rest: seq<nat>, later: seq<nat>, m: nat)
    requires |news| == |tokens| && tokens != [] && TellsAt(path, tokens[1..], news[1..], tail, rest, m)
    requires |later| == |rest| && later[m] == rest[m] + 1
    ensures TellsAt(path, tokens, news, tail, later, m)
  {
    hide TokenChange;
    assert tokens[1..][rest[m]] == tokens[later[m]] && news[1..][rest[m]] == news[later[m]];
  }

  lemma LaterRises(rest: seq<nat>, later: seq<nat>, at: seq<nat>)
    requires |later| == |rest| && (forall k :: 0 <= k < |rest| ==> later[k] == rest[k] + 1) && (at == later || at == [0] + later)
    requires forall m, n :: 0 <= m < n < |rest| ==> rest[m] < rest[n]
    ensures forall m, n :: 0 <= m < n < |at| ==> at[m] < at[n]
  {}

  lemma ReportStep(path: string, tokens: seq<Token>, news: seq<string>, rest: seq<nat>, later: seq<nat>, at: seq<nat>)
    requires |news| == |tokens| && tokens != [] && Reports(path, tokens[1..], news[1..], Differing(path, tokens[1..], news[1..]), rest)
    requires |later| == |rest| && forall k :: 0 <= k < |rest| ==> later[k] == rest[k] + 1
    requires at == if news[0] != tokens[0].value then [0] + later else later
    ensures var report := Differing(path, tokens, news);
      && |at| == |report| && (forall m, n :: 0 <= m < n < |at| ==> at[m] < at[n])
      && (forall m :: 0 <= m < |report| ==> at[m] < |tokens| && report[m] == TokenChange(path, tokens[at[m]], news[at[m]]))
  {
    hide Differing, Reports, TellsAt;
    var report, tail := Differing(path, tokens, news), Differing(path, tokens[1..], news[1..]);
    ReportFirst(path, tokens, news);
    ReportsTell(path, tokens[1..], news[1..], tail, rest);
    LaterRises(rest, later, at);
    forall m | 0 <= m < |report| ensures TellsAt(path, tokens, news, report, at, m) {
      if news[0] == tokens[0].value {
        LaterTells(path, tokens, news, tail, rest, later, m);
      } else {
        if m > 0 { LaterTells(path, tokens, news, tail, rest, later, m - 1); }
        OneMoreTells(path, tokens, news, tail, later, m);
      }
    }
    forall m | 0 <= m < |report| ensures at[m] < |tokens| && report[m] == TokenChange(path, tokens[at[m]], news[at[m]]) {
      WhatItTells(path, tokens, news, report, at, m);
    }
  }

  lemma ReportsTell(path: string, tokens: seq<Token>, news: seq<string>, report: seq<Change>, at: seq<nat>)
    requires |news| == |tokens| && Reports(path, tokens, news, report, at)
    ensures |at| == |report| && (forall m, n :: 0 <= m < n < |at| ==> at[m] < at[n])
    ensures forall m :: 0 <= m < |report| ==> TellsAt(path, tokens, news, report, at, m)
  {}

  lemma OneMoreTells(path: string, tokens: seq<Token>, news: seq<string>, tail: seq<Change>, later: seq<nat>, m: nat)
    requires |news| == |tokens| && tokens != [] && m <= |tail| && (m > 0 ==> TellsAt(path, tokens, news, tail, later, m - 1))
    ensures TellsAt(path, tokens, news, [TokenChange(path, tokens[0], news[0])] + tail, [0] + later, m)
  {}

  lemma WhatItTells(path: string, tokens: seq<Token>, news: seq<string>, report: seq<Change>, at: seq<nat>, m: nat)
    requires |news| == |tokens| && TellsAt(path, tokens, news, report, at, m)
    ensures at[m] < |tokens| && report[m] == TokenChange(path, tokens[at[m]], news[at[m]])
  {}

  lemma ReportFirst(path: string, tokens: seq<Token>, news: seq<string>)
    requires |news| == |tokens| && tokens != []
    ensures var tail := Differing(path, tokens[1..], news[1..]);
      Differing(path, tokens, news) == if news[0] != tokens[0].value then [TokenChange(path, tokens[0], news[0])] + tail else tail
  {}

  // ----- the whole proof

  /** What is wrong with a path before any file is read. */
  ghost predicate PairFault(before: Tree, after: Tree, modes: Option<Modes>, path: string, kind: Refusal) {
    if path !in before || path !in after then kind == Paths
    else kind == Mode && modes.Some? && !(path in modes.value.before && path in modes.value.after && modes.value.before[path] == modes.value.after[path])
  }

  /** What is wrong with a file that stands on both sides. */
  ghost predicate FileFault(c: Context, before: Tree, after: Tree, path: string, kind: Refusal)
    requires path in before && path in after
  {
    before[path] != after[path] &&
    if !MayChange(c.registry, path) then kind == Content
    else if !before[path].Utf8? || !after[path].Utf8? then kind == TreeFault
    else TextCheck(c, path, before[path].text, after[path].text) == Bad(kind)
  }

  lemma CheckSays(c: Context, before: Tree, after: Tree, path: string)
    requires path in before && path in after
    ensures forall kind :: Check(c, before, after, path) == Bad(kind) <==> FileFault(c, before, after, path, kind)
  {
    hide TextCheck;
    MayChangeIff(c, path);
  }

  lemma FineWithout(c: Context, before: Tree, after: Tree, path: string)
    requires path in before && path in after && forall kind :: !FileFault(c, before, after, path, kind)
    ensures Check(c, before, after, path).Fine?
  {
    hide Check, FileFault;
    CheckSays(c, before, after, path);
    forall kind ensures Check(c, before, after, path) != Bad(kind) {}
  }

  ghost predicate FirstPairFault(before: Tree, after: Tree, modes: Option<Modes>, paths: seq<string>, i: int, kind: Refusal) {
    0 <= i < |paths| && PairFault(before, after, modes, paths[i], kind) && forall j, k :: 0 <= j < i ==> !PairFault(before, after, modes, paths[j], k)
  }

  ghost predicate AllPaired(before: Tree, after: Tree, modes: Option<Modes>, paths: seq<string>) {
    forall i, k :: 0 <= i < |paths| ==> !PairFault(before, after, modes, paths[i], k)
  }

  lemma {:induction false} FirstUnpairedIs(before: Tree, after: Tree, modes: Option<Modes>, paths: seq<string>, i: nat, kind: Refusal)
    requires FirstPairFault(before, after, modes, paths, i, kind)
    ensures FirstUnpaired(before, after, modes, paths) == Some(Refused(kind, paths[i]))
  {
    if i > 0 {
      assert !PairFault(before, after, modes, paths[0], Paths) && !PairFault(before, after, modes, paths[0], Mode);
      forall j, k | 0 <= j < i - 1 ensures !PairFault(before, after, modes, paths[1..][j], k) { assert paths[1..][j] == paths[j + 1]; }
      FirstUnpairedIs(before, after, modes, paths[1..], i - 1, kind);
    }
  }

  lemma {:induction false} NoneUnpaired(before: Tree, after: Tree, modes: Option<Modes>, paths: seq<string>)
    requires AllPaired(before, after, modes, paths)
    ensures FirstUnpaired(before, after, modes, paths).None? && forall p :: p in paths ==> p in before && p in after
  {
    if paths != [] {
      assert !PairFault(before, after, modes, paths[0], Paths) && !PairFault(before, after, modes, paths[0], Mode);
      forall j, k | 0 <= j < |paths[1..]| ensures !PairFault(before, after, modes, paths[1..][j], k) { assert paths[1..][j] == paths[j + 1]; }
      NoneUnpaired(before, after, modes, paths[1..]);
    }
  }

  ghost predicate FirstFileFault(c: Context, before: Tree, after: Tree, paths: seq<string>, i: int, kind: Refusal)
    requires forall p :: p in paths ==> p in before && p in after
  {
    0 <= i < |paths| && FileFault(c, before, after, paths[i], kind) && forall j, k :: 0 <= j < i ==> !FileFault(c, before, after, paths[j], k)
  }

  lemma {:induction false} CheckedIs(c: Context, before: Tree, after: Tree, paths: seq<string>, i: nat, kind: Refusal)
    requires forall p :: p in paths ==> p in before && p in after
    requires FirstFileFault(c, before, after, paths, i, kind)
    ensures Checked(c, before, after, paths) == Refused(kind, paths[i])
  {
    hide Check, FileFault;
    CheckSays(c, before, after, paths[0]);
    if i > 0 {
      FineWithout(c, before, after, paths[0]);
      forall j, k | 0 <= j < i - 1 ensures !FileFault(c, before, after, paths[1..][j], k) { assert paths[1..][j] == paths[j + 1]; }
      CheckedIs(c, before, after, paths[1..], i - 1, kind);
    }
  }

  lemma {:induction false} NoneBad(c: Context, before: Tree, after: Tree, paths: seq<string>)
    requires forall p :: p in paths ==> p in before && p in after
    requires forall i, k :: 0 <= i < |paths| ==> !FileFault(c, before, after, paths[i], k)
    ensures Checked(c, before, after, paths).Accepted?
  {
    hide Check, FileFault;
    if paths != [] {
      CheckSays(c, before, after, paths[0]);
      FineWithout(c, before, after, paths[0]);
      forall j, k | 0 <= j < |paths[1..]| ensures !FileFault(c, before, after, paths[1..][j], k) { assert paths[1..][j] == paths[j + 1]; }
      NoneBad(c, before, after, paths[1..]);
    }
  }

  /**
   The refusal: the first path that lacks a side or a mode; with every path paired, the first file that must not have changed
   so; with every file fine, the agreement of the after tree.
  */
  lemma DeltaSays(c: Context, before: Tree, after: Tree, modes: Option<Modes>, paths: seq<string>)
    ensures forall i, kind :: 0 <= i < |paths| && FirstPairFault(before, after, modes, paths, i, kind) ==> Delta(c, before, after, modes, paths) == Refused(kind, paths[i])
    ensures AllPaired(before, after, modes, paths) ==>
      && (forall p :: p in paths ==> p in before && p in after)
      && (forall i, kind :: 0 <= i < |paths| && FirstFileFault(c, before, after, paths, i, kind) ==> Delta(c, before, after, modes, paths) == Refused(kind, paths[i]))
      && ((forall i, kind :: 0 <= i < |paths| ==> !FileFault(c, before, after, paths[i], kind)) ==>
            match c.agreement(after)
            case Holds => Delta(c, before, after, modes, paths).Accepted?
            case Violated => Delta(c, before, after, modes, paths) == Refused(Agreement, "")
            case Throws => Delta(c, before, after, modes, paths) == Refused(TreeFault, ""))
  {
    hide FirstPairFault, FirstFileFault, FileFault, AllPaired, Checked, FirstUnpaired;
    forall i, kind | 0 <= i < |paths| && FirstPairFault(before, after, modes, paths, i, kind) ensures Delta(c, before, after, modes, paths) == Refused(kind, paths[i]) {
      FirstUnpairedIs(before, after, modes, paths, i, kind);
    }
    if AllPaired(before, after, modes, paths) {
      NoneUnpaired(before, after, modes, paths);
      forall i, kind | 0 <= i < |paths| && FirstFileFault(c, before, after, paths, i, kind) ensures Delta(c, before, after, modes, paths) == Refused(kind, paths[i]) {
        CheckedIs(c, before, after, paths, i, kind);
      }
      if forall i, kind :: 0 <= i < |paths| ==> !FileFault(c, before, after, paths[i], kind) { NoneBad(c, before, after, paths); }
    }
  }
}
