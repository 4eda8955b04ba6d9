/** Which terminal a run delivers, read off its lines: the first line that ends it, or how the stream stopped. */
module ClaudeEnding {
  import opened Text
  import opened Budgets
  import opened Sequencing
  import opened SequencingKept
  import opened ClaudeStream
  import opened ClaudeRun
  import opened ClaudePromise
  import opened ClaudeCourse

  /** The model a line says is answering. */
  function NamedBy(line: Line): Option<string> {
    match line
    case SystemInit(model) => Some(model)
    case Assistant(model, _, _) => if model == "" then None else Some(model)
    case _ => None
  }

  /** Some line before i names a model. */
  ghost predicate Named(lines: seq<Line>, i: nat)
    requires i <= |lines|
  {
    exists j :: 0 <= j < i && NamedBy(lines[j]).Some?
  }

  /** Some line before i names another model. */
  ghost predicate NamedOther(lines: seq<Line>, i: nat, model: string)
    requires i <= |lines|
  {
    exists j :: 0 <= j < i && NamedBy(lines[j]).Some? && NamedBy(lines[j]).value != model
  }

  /** Line i, where the run is still open, ends it like this. */
  ghost predicate EndsWith(lines: seq<Line>, i: nat, body: Payload)
    requires i < |lines|
  {
    match lines[i]
    case RateLimit(blocks) => blocks && body == Failed(QuotaExhausted)
    case Result(_, _, failed, quota) =>
      body == if !failed then (if Named(lines, i) then Completed(None) else Failed(ModelUnresolved))
              else if quota then Failed(QuotaExhausted) else Failed(BackendFailure)
    case _ =>
      NamedBy(lines[i]).Some? &&
      var model := NamedBy(lines[i]).value;
      (!Representable(model) && body == Failed(ModelUnresolved)) || (Representable(model) && NamedOther(lines, i, model) && body == Failed(ModelMismatch))
  }

  ghost predicate Ending(lines: seq<Line>, i: nat)
    requires i < |lines|
  {
    exists body :: EndsWith(lines, i, body)
  }

  /** Line i is the first that ends the run. */
  ghost predicate FirstEnding(lines: seq<Line>, i: nat) {
    i < |lines| && Ending(lines, i) && forall j :: 0 <= j < i ==> !Ending(lines, j)
  }

  // ----- the course of the lines, said with these

  lemma EarlierEnds(lines: seq<Line>, n: nat, i: nat)
    requires i < n <= |lines|
    ensures Ending(lines[..n], i) <==> Ending(lines, i)
    ensures forall body :: EndsWith(lines[..n], i, body) <==> EndsWith(lines, i, body)
  {
    assert Named(lines[..n], i) <==> Named(lines, i);
    forall model ensures NamedOther(lines[..n], i, model) <==> NamedOther(lines, i, model) {}
    forall body ensures EndsWith(lines[..n], i, body) <==> EndsWith(lines, i, body) { assert lines[..n][i] == lines[i]; }
  }

  /** The model named so far, on lines none of which ends the run. */
  ghost predicate CourseReads(lines: seq<Line>, course: Course) {
    && (course.Over? <==> exists i :: 0 <= i < |lines| && Ending(lines, i))
    && (course.Open? ==> (course.model.Some? <==> Named(lines, |lines|)))
    && (course.Open? && course.model.Some? ==> Representable(course.model.value) && !NamedOther(lines, |lines|, course.model.value))
  }

  lemma LineGoes(lines: seq<Line>, course: Course)
    requires lines != [] && course.Open?
    requires course.model.Some? <==> Named(lines, |lines| - 1)
    requires course.model.Some? ==> Representable(course.model.value) && !NamedOther(lines, |lines| - 1, course.model.value)
    ensures var n := |lines| - 1; Go(course, lines[n]).Over? <==> Ending(lines, n)
    ensures Go(course, lines[|lines| - 1]).Open? ==>
      var next := Go(course, lines[|lines| - 1]).model;
      && (next.Some? <==> Named(lines, |lines|))
      && (next.Some? ==> Representable(next.value) && !NamedOther(lines, |lines|, next.value))
  {
    hide Representable;
    var n := |lines| - 1;
    assert Named(lines, |lines|) <==> Named(lines, n) || NamedBy(lines[n]).Some?;
    forall model ensures NamedOther(lines, |lines|, model) <==> NamedOther(lines, n, model) || (NamedBy(lines[n]).Some? && NamedBy(lines[n]).value != model) {}
    match lines[n]
    case RateLimit(blocks) => if blocks { assert EndsWith(lines, n, Failed(QuotaExhausted)); }
    case Result(_, _, failed, quota) =>
      assert EndsWith(lines, n, if !failed then (if Named(lines, n) then Completed(None) else Failed(ModelUnresolved))
                                else if quota then Failed(QuotaExhausted) else Failed(BackendFailure));
    case _ =>
      if NamedBy(lines[n]).Some? { ModelGoes(lines, course); }
  }

  lemma ModelGoes(lines: seq<Line>, course: Course)
    requires lines != [] && course.Open? && NamedBy(lines[|lines| - 1]).Some? && !lines[|lines| - 1].RateLimit? && !lines[|lines| - 1].Result?
    requires course.model.Some? <==> Named(lines, |lines| - 1)
    requires course.model.Some? ==> !NamedOther(lines, |lines| - 1, course.model.value)
    ensures var n, model := |lines| - 1, NamedBy(lines[|lines| - 1]).value;
      && Go(course, lines[n]) == Name(course, model)
      && (NamedOther(lines, n, model) <==> course.model.Some? && course.model.value != model)
      && (Ending(lines, n) <==> !Representable(model) || NamedOther(lines, n, model))
  {
    hide Representable;
    var n, model := |lines| - 1, NamedBy(lines[|lines| - 1]).value;
    if course.model.Some? {
      var j :| 0 <= j < n && NamedBy(lines[j]).Some?;
      assert NamedBy(lines[j]).value == course.model.value;
    }
    if !Representable(model) { assert EndsWith(lines, n, Failed(ModelUnresolved)); }
    else if NamedOther(lines, n, model) { assert EndsWith(lines, n, Failed(ModelMismatch)); }
  }

  lemma {:induction false} CourseIs(lines: seq<Line>)
    ensures CourseReads(lines, CourseOf(lines))
  {
    hide Go, Ending, Representable;
    if lines != [] {
      var n := |lines| - 1;
      var init := lines[..n];
      CourseIs(init);
      forall i | 0 <= i < n ensures Ending(init, i) <==> Ending(lines, i) { EarlierEnds(lines, n, i); }
      NamedInit(lines, init, n);
      if CourseOf(init).Open? {
        LineGoes(lines, CourseOf(init));
      } else {
        var i :| 0 <= i < n && Ending(init, i);
        assert Ending(lines, i);
        OverStays(lines[n]);
      }
    }
  }

  lemma OverStays(line: Line)
    ensures Go(Over, line) == Over
  {}

  lemma NamedInit(lines: seq<Line>, init: seq<Line>, n: nat)
    requires n < |lines| && init == lines[..n]
    ensures Named(init, n) <==> Named(lines, n)
    ensures forall model :: NamedOther(init, n, model) <==> NamedOther(lines, n, model)
  {}

  // ----- the terminal a line stamps

  ghost function Last(c: Core): Payload
    requires c.log != []
  {
    c.log[|c.log| - 1].body
  }

  lemma FailSays(c: Core, code: ErrorCode, at: Clock)
    requires !c.terminal
    ensures Fail(c, code, at).terminal && Fail(c, code, at).log != [] && Last(Fail(c, code, at)) == Failed(code)
  {
    hide SettleAll, ClockAdvisory;
  }

  lemma CancelSays(c: Core)
    requires !c.terminal
    ensures Cancel(c).terminal && Cancel(c).log != [] && Last(Cancel(c)) == Cancelled
  {
    hide SettleAll;
  }

  lemma {:induction false} SettlingUndecided(c: Core, outcome: Outcome)
    ensures Undecided(c, SettleAll(c, outcome))
    decreases |c.open|
  {
    if c.open != [] { SettlingUndecided(Settle(c.(open := c.open[1..]), c.open[0].1, outcome), outcome); }
  }

  lemma CompleteSays(c: Core, at: Clock)
    requires !c.terminal && c.attributed.None?
    ensures Complete(c, at).terminal && Complete(c, at).log != []
    ensures Last(Complete(c, at)) == if c.resolved.Some? then Completed(None) else Failed(ModelUnresolved)
  {
    hide SettleAll, ClockAdvisory;
    NoticesUndecided(c, at);
    SettlingUndecided(ClockAdvisory(c, at), Error);
  }

  /** A line that ends an open run stamps the terminal that the lines say. */
  lemma StampsEnding(p: Pair, lines: seq<Line>, body: Payload)
    requires lines != [] && !lines[|lines| - 1].Blank? && EndsWith(lines, |lines| - 1, body)
    requires InCourse(p.c, CourseOf(lines[..|lines| - 1])) && CourseOf(lines[..|lines| - 1]).Open? && !Throws(lines[|lines| - 1])
    ensures var x := DecodeOpened(p, lines[|lines| - 1]).p.c; x.terminal && x.log != [] && Last(x) == body
  {
    hide SettleAll, ClockAdvisory, Optional, Notify, ReportUsage, ReportQuota, AssistantBlocks, CourseOf, Fail, Complete, Representable, Last;
    var n := |lines| - 1;
    var init := lines[..n];
    CourseIs(init);
    NamedInit(lines, init, n);
    match lines[n]
    case RateLimit(blocks) =>
      NotifyUndecided(p.c, UnknownEvent, Silent);
      FailSays(ReportQuota(p.c, Silent), QuotaExhausted, Silent);
    case Result(at, usage, failed, quota) =>
      var told := TellUsage(p, at, usage).c;
      if usage.Some? { UsageUndecided(p.c, MapUsage(usage.value, p.d.delta), usage.value.faulty, at); }
      NotifyUndecided(told, UnknownEvent, at);
      if !failed { CompleteSays(told, at); } else if quota { FailSays(ReportQuota(told, at), QuotaExhausted, at); } else { FailSays(told, BackendFailure, at); }
    case SystemInit(model) => ModelSays(p, lines, model, Silent, body);
    case Assistant(model, at, content) =>
      ModelSays(p, lines, model, at, body);
      BlocksAfterEnd(Pair(p.d, ResolveModel(p.c, model, at)), content.blocks, at);
    case _ =>
  }

  lemma ModelSays(p: Pair, lines: seq<Line>, model: string, at: Clock, body: Payload)
    requires lines != [] && NamedBy(lines[|lines| - 1]) == Some(model) && EndsWith(lines, |lines| - 1, body)
    requires InCourse(p.c, CourseOf(lines[..|lines| - 1])) && CourseOf(lines[..|lines| - 1]).Open?
    ensures var x := ResolveModel(p.c, model, at); x.terminal && x.log != [] && Last(x) == body
  {
    hide CourseOf, Fail, Representable, Last, ResolveTo;
    var n := |lines| - 1;
    CourseIs(lines[..n]);
    NamedInit(lines, lines[..n], n);
    ModelGoes(lines, CourseOf(lines[..n]));
    FailSays(p.c, ModelUnresolved, at);
    FailSays(p.c, ModelMismatch, at);
  }

  lemma {:induction false} BlocksAfterEnd(p: Pair, blocks: seq<Block>, at: Clock)
    requires p.c.terminal
    ensures AssistantBlocks(p, blocks, at).p.c == p.c
    decreases |blocks|
  {
    if blocks != [] && AssistantBlock(p, blocks[0], at).finished { BlocksAfterEnd(AssistantBlock(p, blocks[0], at).p, blocks[1..], at); }
  }

  // ----- the state after lines that do not throw

  lemma {:induction false} AfterOne(p: Pair, lines: seq<Line>, line: Line)
    ensures After(p, lines + [line]) == Decode(After(p, lines), line).p
    decreases |lines|
  {
    hide Decode;
    if lines == [] {
      assert [] + [line] == [line] && [line][1..] == [];
    } else {
      assert (lines + [line])[0] == lines[0] && (lines + [line])[1..] == lines[1..] + [line];
      AfterOne(Decode(p, lines[0]).p, lines[1..], line);
    }
  }

  ghost predicate Sound(lines: seq<Line>, k: nat) {
    k <= |lines| && forall i :: 0 <= i < k ==> !Throws(lines[i])
  }

  /** The sequence after a prefix that does not throw ends in the terminal its first ending line calls for. */
  lemma {:induction false} StateEnds(maxBytes: nat, maxEvents: nat, lines: seq<Line>, k: nat, i: nat, body: Payload)
    requires Sound(lines, k) && i < k && FirstEnding(lines, i) && EndsWith(lines, i, body)
    ensures var c := After(NewRun(maxBytes, maxEvents), lines[..k]).c; c.terminal && c.log != [] && Last(c) == body
    decreases k
  {
    hide NewRun, Decode, Ready, Throws, FirstEnding, EndsWith, Last;
    var n := k - 1;
    var q := After(NewRun(maxBytes, maxEvents), lines[..n]);
    assert lines[..k] == lines[..n] + [lines[n]];
    AfterOne(NewRun(maxBytes, maxEvents), lines[..n], lines[n]);
    if i < n {
      StateEnds(maxBytes, maxEvents, lines, n, i, body);
      EndedStays(maxBytes, maxEvents, lines, n);
    } else {
      FirstStamps(maxBytes, maxEvents, lines, i, body);
    }
  }

  lemma EndedStays(maxBytes: nat, maxEvents: nat, lines: seq<Line>, n: nat)
    requires n < |lines| && Sound(lines, n) && After(NewRun(maxBytes, maxEvents), lines[..n]).c.terminal
    ensures var q := After(NewRun(maxBytes, maxEvents), lines[..n]); Decode(q, lines[n]).p.c == q.c
  {
    hide Ready, NewRun, After, Throws, Decode;
    ReadyThere(maxBytes, maxEvents, lines, n);
    DecodeKeeps(After(NewRun(maxBytes, maxEvents), lines[..n]), lines[n]);
  }

  lemma FirstStamps(maxBytes: nat, maxEvents: nat, lines: seq<Line>, i: nat, body: Payload)
    requires Sound(lines, i) && FirstEnding(lines, i) && EndsWith(lines, i, body) && !Throws(lines[i])
    ensures var x := Decode(After(NewRun(maxBytes, maxEvents), lines[..i]), lines[i]).p.c; x.terminal && x.log != [] && Last(x) == body
  {
    hide NewRun, After, Throws, InCourse, CourseOf, Last, DecodeOpened, EnsureStarted, EndsWith;
    var q := After(NewRun(maxBytes, maxEvents), lines[..i]);
    CourseThere(maxBytes, maxEvents, lines, i);
    NotOverBefore(lines, i);
    OpensUndecided(q);
    StaysInCourse(q.c, EnsureStarted(q).c, CourseOf(lines[..i]));
    var upTo := lines[..i + 1];
    assert upTo[..i] == lines[..i] && upTo[i] == lines[i];
    EarlierEnds(lines, i + 1, i);
    EndsNotBlank(lines, i, body);
    StampsEnding(EnsureStarted(q), upTo, body);
  }

  lemma EndsNotBlank(lines: seq<Line>, i: nat, body: Payload)
    requires i < |lines| && EndsWith(lines, i, body)
    ensures !lines[i].Blank?
  {}

  lemma NotOverBefore(lines: seq<Line>, i: nat)
    requires i <= |lines| && forall j :: 0 <= j < i ==> !Ending(lines, j)
    ensures CourseOf(lines[..i]).Open?
  {
    hide CourseOf, Ending;
    CourseIs(lines[..i]);
    forall j | 0 <= j < i ensures !Ending(lines[..i], j) { EarlierEnds(lines, i, j); }
  }

  // ----- what the consumer gets

  /** How the run ends when no line ended it. */
  ghost function HostSays(threw: bool, stop: Stop): Payload {
    if stop.aborted || (stop.broke && stop.cancellation && !threw) then Cancelled
    else if threw || stop.broke then Failed(BackendFailure) else Failed(TerminalMissing)
  }

  lemma HostSaysSo(p: Pair, threw: bool, stop: Stop)
    requires !p.c.terminal
    ensures var x := HostEnding(p, threw, stop); x.terminal && x.log != [] && Last(x) == HostSays(threw, stop)
  {
    hide Fail, Cancel, EnsureStarted, ReportUsage, Last;
    OpensUndecided(p);
    var o := EnsureStarted(p);
    if o.d.delta.Some? { UsageUndecided(o.c, o.d.delta.value, false, Silent); }
    var q := FlushUsage(o).c;
    FailSays(q, if threw || stop.broke then BackendFailure else TerminalMissing, Silent);
    CancelSays(q);
  }

  ghost predicate LastIs(events: seq<Event>, body: Payload) {
    events != [] && events[|events| - 1].body == body
  }

  ghost function WithExit(body: Payload, exit: Option<int>): Payload {
    if body.Completed? then Completed(exit) else body
  }

  /** Reading stops at line k: the first that throws, or the end of the stream. */
  ghost predicate StopsAt(lines: seq<Line>, k: nat) {
    Sound(lines, k) && (k < |lines| ==> Throws(lines[k]))
  }

  /** The read loop up to where it stops. */
  lemma ReadStops(maxBytes: nat, maxEvents: nat, lines: seq<Line>, k: nat)
    requires StopsAt(lines, k)
    ensures var start, r := NewRun(maxBytes, maxEvents), ReadAll(NewRun(maxBytes, maxEvents), lines, []);
      var q := After(start, lines[..k]);
      && Ready(q) && r.kept == q.c.log && r.threw == (k < |lines|) && r.p == if k < |lines| then Decode(q, lines[k]).p else q
  {
    hide Ready, Steady, Decode, Throws, NewRun, After;
    var start := NewRun(maxBytes, maxEvents);
    NewRunIsReady(maxBytes, maxEvents);
    ReadTo(start, lines, k, []);
    if k < |lines| {
      ThrowsIff(After(start, lines[..k]), lines[k]);
      assert lines[k..][0] == lines[k];
    }
  }

  /** A line before the reading stops ended the run: its terminal is delivered, with the exit code that was measured. */
  lemma EndedByLine(maxBytes: nat, maxEvents: nat, lines: seq<Line>, stop: Stop, exit: Option<int>, k: nat, i: nat, body: Payload)
    requires StopsAt(lines, k) && i < k && FirstEnding(lines, i) && EndsWith(lines, i, body)
    ensures LastIs(Parse(NewRun(maxBytes, maxEvents), lines, stop, exit), WithExit(body, exit))
  {
    hide Ready, NewRun, After, ReadAll, Decode, FirstEnding, EndsWith, HostEnding;
    ReadStops(maxBytes, maxEvents, lines, k);
    StateEnds(maxBytes, maxEvents, lines, k, i, body);
    var q := After(NewRun(maxBytes, maxEvents), lines[..k]);
    ReadyGoodLog(q);
    AliveSettles(q.c);
  }

  lemma ReadyGoodLog(p: Pair)
    requires Ready(p)
    ensures Good(p.c)
  {}

  /** The line that ends the run is the one that throws: no terminal is delivered. */
  lemma EndedByFault(maxBytes: nat, maxEvents: nat, lines: seq<Line>, stop: Stop, exit: Option<int>, k: nat)
    requires StopsAt(lines, k) && k < |lines| && FirstEnding(lines, k)
    ensures !Settles(Parse(NewRun(maxBytes, maxEvents), lines, stop, exit))
  {
    hide Ready, NewRun, After, ReadAll, Decode, Ending, Good, HostEnding, InCourse, CourseOf, Throws, Go, Settles;
    ReadStops(maxBytes, maxEvents, lines, k);
    var q := After(NewRun(maxBytes, maxEvents), lines[..k]);
    CourseThere(maxBytes, maxEvents, lines, k);
    NotOverBefore(lines, k);
    CourseSays(q.c, CourseOf(lines[..k]));
    ReadyGoodLog(q);
    AliveSettles(q.c);
    DecodeInCourse(q, lines[k], CourseOf(lines[..k]));
    EndsTheCourse(lines, k);
    var x := Decode(q, lines[k]).p;
    CourseSays(x.c, Go(CourseOf(lines[..k]), lines[k]));
    DecodeKeeps(q, lines[k]);
    NothingMore(x, true, stop);
    SettlesEither(q.c.log, Since(x.c, HostEnding(x, true, stop)));
    NothingSettles();
  }

  lemma NothingMore(x: Pair, threw: bool, stop: Stop)
    requires Steady(x) && x.c.terminal
    ensures Since(x.c, HostEnding(x, threw, stop)) == []
  {
    hide HostEnding, Steady;
    HostEnds(x, threw, stop);
  }

  lemma EndsTheCourse(lines: seq<Line>, k: nat)
    requires k < |lines| && CourseOf(lines[..k]).Open? && Ending(lines, k)
    ensures Go(CourseOf(lines[..k]), lines[k]).Over?
  {
    hide Go, Ending;
    var upTo := lines[..k + 1];
    assert upTo[..k] == lines[..k] && upTo[k] == lines[k];
    CourseIs(upTo);
    EarlierEnds(lines, k + 1, k);
  }

  /** No line ended the run before reading stopped: the host ends it. */
  lemma EndedByHost(maxBytes: nat, maxEvents: nat, lines: seq<Line>, stop: Stop, exit: Option<int>, k: nat)
    requires StopsAt(lines, k) && forall i :: 0 <= i <= k && i < |lines| ==> !Ending(lines, i)
    ensures LastIs(Parse(NewRun(maxBytes, maxEvents), lines, stop, exit), HostSays(k < |lines|, stop))
  {
    hide Ready, NewRun, After, ReadAll, Decode, Ending, Good, HostEnding, InCourse, CourseOf, Throws, Settles, HostSays;
    ReadStops(maxBytes, maxEvents, lines, k);
    var start := NewRun(maxBytes, maxEvents);
    var q := After(start, lines[..k]);
    CourseThere(maxBytes, maxEvents, lines, k);
    NotOverBefore(lines, k);
    CourseSays(q.c, CourseOf(lines[..k]));
    ReadyGoodLog(q);
    AliveSettles(q.c);
    var r := ReadAll(start, lines, []);
    if k < |lines| {
      NotOverBefore(lines, k + 1);
      UpTo(lines, k);
      DecodeInCourse(q, lines[k], CourseOf(lines[..k]));
      CourseSays(r.p.c, CourseOf(lines[..k + 1]));
      DecodeKeeps(q, lines[k]);
    } else {
      ReadySteady(q);
    }
    HostSaysSo(r.p, r.threw, stop);
    HostAdds(r.p, r.threw, stop);
  }

  lemma UpTo(lines: seq<Line>, k: nat)
    requires k < |lines|
    ensures CourseOf(lines[..k + 1]) == Go(CourseOf(lines[..k]), lines[k])
  {
    assert lines[..k + 1][..k] == lines[..k];
  }

  lemma HostAdds(p: Pair, threw: bool, stop: Stop)
    requires Steady(p) && !p.c.terminal
    ensures var x := HostEnding(p, threw, stop);
      x.log != [] && Since(p.c, x) != [] && Since(p.c, x)[|Since(p.c, x)| - 1] == x.log[|x.log| - 1]
  {
    hide HostEnding, Steady;
    HostEnds(p, threw, stop);
    HostSaysSo(p, threw, stop);
    EndsDiffer(p, HostEnding(p, threw, stop));
  }

  lemma SameLog(a: seq<Event>, b: seq<Event>)
    requires a <= b && |a| == |b|
    ensures a == b
  {}

  lemma EndsDiffer(p: Pair, x: Core)
    requires Steady(p) && !p.c.terminal && Ended(x) && p.c.log <= x.log
    ensures |p.c.log| < |x.log|
  {
    AliveSettles(p.c);
    AliveSettles(x);
    if |p.c.log| == |x.log| { SameLog(p.c.log, x.log); }
  }

  /**
   The terminal of any run. Reading stops at the first line that throws, or at the end. If a line before that ended the run,
   its terminal arrives; if the throwing line itself did, none does; otherwise the host says how the stream stopped.
  */
  lemma TerminalIs(maxBytes: nat, maxEvents: nat, lines: seq<Line>, stop: Stop, exit: Option<int>, k: nat)
    requires StopsAt(lines, k)
    ensures var events := Parse(NewRun(maxBytes, maxEvents), lines, stop, exit);
      && (forall i, body :: 0 <= i < k && i < |lines| && FirstEnding(lines, i) && EndsWith(lines, i, body) ==> LastIs(events, WithExit(body, exit)))
      && (k < |lines| && FirstEnding(lines, k) ==> !Settles(events))
      && ((forall i :: 0 <= i <= k && i < |lines| ==> !Ending(lines, i)) ==> LastIs(events, HostSays(k < |lines|, stop)))
  {
    hide NewRun, Parse, FirstEnding, EndsWith, Ending, HostSays, Settles, StopsAt, LastIs, WithExit;
    forall i, body | 0 <= i < k && i < |lines| && FirstEnding(lines, i) && EndsWith(lines, i, body)
      ensures LastIs(Parse(NewRun(maxBytes, maxEvents), lines, stop, exit), WithExit(body, exit))
    {
      EndedByLine(maxBytes, maxEvents, lines, stop, exit, k, i, body);
    }
    if k < |lines| && FirstEnding(lines, k) { EndedByFault(maxBytes, maxEvents, lines, stop, exit, k); }
    if forall i :: 0 <= i <= k && i < |lines| ==> !Ending(lines, i) { EndedByHost(maxBytes, maxEvents, lines, stop, exit, k); }
  }

  lemma {:induction false} SomeEnding(lines: seq<Line>, n: nat) returns (i: nat)
    requires n <= |lines|
    ensures i <= n && (forall j :: 0 <= j < i ==> !Ending(lines, j)) && (i < n ==> FirstEnding(lines, i))
  {
    hide Ending;
    i := 0;
    while i < n
      invariant i <= n && forall j :: 0 <= j < i ==> !Ending(lines, j)
    {
      if Ending(lines, i) { return; }
      i := i + 1;
    }
  }

  /** A line that completes the run: a result that did not fail, after some line named the model. */
  ghost predicate Completes(lines: seq<Line>, i: nat) {
    i < |lines| && lines[i].Result? && !lines[i].failed && Named(lines, i)
  }

  /** A run ends in run.completed exactly when the first line that ends it completes it, and nothing up to it throws. */
  lemma CompletedIff(maxBytes: nat, maxEvents: nat, lines: seq<Line>, stop: Stop, exit: Option<int>)
    ensures LastIs(Parse(NewRun(maxBytes, maxEvents), lines, stop, exit), Completed(exit))
      <==> exists i :: FirstEnding(lines, i) && Completes(lines, i) && Sound(lines, i)
  {
    hide NewRun, Parse, FirstEnding, Settles, Throws, EndsWith, Completes;
    var events := Parse(NewRun(maxBytes, maxEvents), lines, stop, exit);
    var k := SomeFirst(lines);
    StopsThere(lines, k);
    TerminalIs(maxBytes, maxEvents, lines, stop, exit, k);
    var i := SomeEnding(lines, if k < |lines| then k + 1 else k);
    forall j: nat | FirstEnding(lines, j) && Sound(lines, j) ensures j <= k && j < |lines| { StopsFirst(lines, j, k); }
    if i < k {
      var body := EndingOf(lines, i);
      CompletesIff(lines, i, body);
      forall j | FirstEnding(lines, j) ensures j == i { OneFirstEnding(lines, i, j); }
    } else if k < |lines| && i == k {
      FaultCompletes(lines, k);
      forall j | FirstEnding(lines, j) ensures j == i { OneFirstEnding(lines, i, j); }
      NotSettled(events, exit);
    } else {
      forall j: nat | j <= k && j < |lines| ensures !FirstEnding(lines, j) { NotFirst(lines, j); }
    }
  }

  lemma StopsThere(lines: seq<Line>, k: nat)
    requires k <= |lines| && (forall i :: 0 <= i < k ==> !Throws(lines[i])) && (k < |lines| ==> FirstThrow(lines, k))
    ensures StopsAt(lines, k)
  {}

  lemma StopsFirst(lines: seq<Line>, j: nat, k: nat)
    requires StopsAt(lines, k) && FirstEnding(lines, j) && Sound(lines, j)
    ensures j <= k && j < |lines|
  {}

  lemma EndingOf(lines: seq<Line>, i: nat) returns (body: Payload)
    requires FirstEnding(lines, i)
    ensures EndsWith(lines, i, body)
  {
    body :| EndsWith(lines, i, body);
  }

  lemma OneFirstEnding(lines: seq<Line>, i: nat, j: nat)
    requires FirstEnding(lines, i) && FirstEnding(lines, j)
    ensures i == j
  {}

  lemma NotFirst(lines: seq<Line>, j: nat)
    requires j < |lines| && !Ending(lines, j)
    ensures !FirstEnding(lines, j)
  {}

  lemma NotSettled(events: seq<Event>, exit: Option<int>)
    requires !Settles(events)
    ensures !LastIs(events, Completed(exit))
  {
    if events != [] { assert events[|events| - 1] in events; }
  }

  lemma CompletesIff(lines: seq<Line>, i: nat, body: Payload)
    requires i < |lines| && EndsWith(lines, i, body)
    ensures body.Completed? <==> Completes(lines, i)
  {}

  lemma FaultCompletes(lines: seq<Line>, k: nat)
    requires k < |lines| && Throws(lines[k])
    ensures !Completes(lines, k)
  {}
}
