/** Which lines take a promised event away: read off the lines alone, before anything is decoded. */
module ClaudeCourse {
  import opened Text
  import opened Budgets
  import opened Sequencing
  import opened SequencingKept
  import opened ClaudeStream
  import opened ClaudeRun
  import opened ClaudePromise

  /** Where the lines so far leave a run: still open, with the model they named, or over. */
  datatype Course = Open(model: Option<string>) | Over

  /** A line names a model: one that cannot be represented, or not the one named before, ends the run. */
  function Name(course: Course, model: string): Course {
    match course
    case Over => Over
    case Open(named) => if !Representable(model) || (named.Some? && named.value != model) then Over else Open(Some(model))
  }

  function Go(course: Course, line: Line): Course {
    match line
    case SystemInit(model) => Name(course, model)
    case Assistant(model, _, _) => if model == "" then course else Name(course, model)
    case RateLimit(blocks) => if blocks then Over else course
    case Result(_, _, _, _) => Over
    case _ => course
  }

  function CourseOf(lines: seq<Line>): Course {
    if lines == [] then Open(None) else Go(CourseOf(lines[..|lines| - 1]), lines[|lines| - 1])
  }

  /** Line k is the first that throws. */
  predicate FirstThrow(lines: seq<Line>, k: nat) {
    k < |lines| && Throws(lines[k]) && forall i :: 0 <= i < k ==> !Throws(lines[i])
  }

  /** Throwing, line k takes a terminal with it: on a run still open it names a model that cannot be represented or is
      not the one named before. */
  predicate TakesTerminal(lines: seq<Line>, k: nat)
    requires k < |lines|
  {
    lines[k].Assistant? && lines[k].model != "" && CourseOf(lines[..k]).Open? && Name(CourseOf(lines[..k]), lines[k].model).Over?
  }

  /** Throwing, line k takes run.started with it: nothing but blank lines came before. */
  predicate TakesStart(lines: seq<Line>, k: nat)
    requires k < |lines|
  {
    forall i :: 0 <= i < k ==> lines[i].Blank?
  }

  // ----- the course is the state's

  ghost predicate InCourse(c: Core, course: Course) {
    && (course.Over? <==> c.terminal) && (course.Open? ==> c.resolved == course.model && c.attributed.None?)
  }

  /** Nothing that decides a run's course has changed. */
  ghost predicate Undecided(c: Core, x: Core) {
    x.terminal == c.terminal && x.resolved == c.resolved && x.attributed == c.attributed
  }

  lemma NoticesUndecided(c: Core, at: Clock)
    ensures Undecided(c, ClockAdvisory(c, at)) && Undecided(c, DrainNotice(c))
  {}

  lemma OfferUndecided(c: Core, body: Payload)
    ensures Undecided(c, OfferEvent(c, body))
  {}

  lemma StepsUndecided(c: Core, body: Payload, at: Clock)
    ensures Undecided(c, Optional(c, body, at)) && Undecided(c, ClockAdvisory(c, at)) && Undecided(c, DrainNotice(c))
  {
    hide ClockAdvisory, DrainNotice, OfferEvent;
    NoticesUndecided(c, at);
    OfferUndecided(ClockAdvisory(c, at), body);
    NoticesUndecided(OfferEvent(ClockAdvisory(c, at), body), at);
  }

  lemma NotifyUndecided(c: Core, notice: Notice, at: Clock)
    ensures Undecided(c, Notify(c, notice, at)) && Undecided(c, ReportQuota(c, at))
  {
    hide Optional;
    StepsUndecided(c, Noticed(notice), at);
    StepsUndecided(c, Quota, at);
  }

  lemma UsageUndecided(c: Core, counts: Counts, faulty: bool, at: Clock)
    ensures Undecided(c, ReportUsage(c, counts, faulty, at))
  {
    hide Optional, Notify;
    NotifyUndecided(c, MalformedUsage, at);
    StepsUndecided(if faulty then Notify(c, MalformedUsage, at) else c, Payload.Usage(counts), at);
  }

  lemma TextUndecided(c: Core, thinking: bool, value: string, at: Clock)
    ensures Undecided(c, EmitText(c, thinking, value, at))
  {
    hide DrainNotice, ClockAdvisory;
    StepsUndecided(c, Started, at);
    StepsUndecided(FitAndOffer(ClockAdvisory(c, at), thinking, value), Started, at);
  }

  lemma CallUndecided(c: Core, id: string, outcome: Outcome, at: Clock)
    ensures Undecided(c, ToolRequested(c, id, at)) && Undecided(c, ToolCompleted(c, id, outcome, at))
  {
    hide DrainNotice, ClockAdvisory, Notify, IsOpen;
    StepsUndecided(c, Started, at);
    StepsUndecided(OpenCall(ClockAdvisory(c, at), id), Started, at);
    NotifyUndecided(c, UnknownEvent, at);
  }

  lemma {:induction false} BlocksUndecided(p: Pair, blocks: seq<Block>, at: Clock)
    ensures Undecided(p.c, AssistantBlocks(p, blocks, at).p.c) && Undecided(p.c, UserBlocks(p, blocks, at).p.c)
    decreases |blocks|
  {
    hide ToolRequested, ToolCompleted;
    if blocks != [] {
      OneBlock(p, blocks[0], at);
      BlocksUndecided(AssistantBlock(p, blocks[0], at).p, blocks[1..], at);
      BlocksUndecided(UserBlock(p, blocks[0], at).p, blocks[1..], at);
    }
  }

  lemma OneBlock(p: Pair, block: Block, at: Clock)
    ensures Undecided(p.c, AssistantBlock(p, block, at).p.c) && Undecided(p.c, UserBlock(p, block, at).p.c)
  {
    hide ToolRequested, ToolCompleted;
    match block
    case ToolUse(id) => CallUndecided(p.c, id, Fine, at);
    case ToolResult(id, failed) => CallUndecided(p.c, id, if failed then Error else Fine, at);
    case _ =>
  }

  lemma EndsDecided(c: Core, code: ErrorCode, at: Clock, failed: bool, quota: bool)
    ensures Fail(c, code, at).terminal && Ending(c, at, failed, quota).terminal
  {}

  lemma NamesModel(c: Core, course: Course, model: string, at: Clock)
    requires InCourse(c, course)
    ensures InCourse(ResolveModel(c, model, at), Name(course, model))
  {
    hide Fail, Representable;
    EndsDecided(c, ModelUnresolved, at, false, false);
    EndsDecided(c, ModelMismatch, at, false, false);
  }

  lemma OpensUndecided(p: Pair)
    ensures Undecided(p.c, EnsureStarted(p).c)
  {
    NotifyUndecided(p.c, UnknownEvent, Silent);
  }

  lemma StaysInCourse(c: Core, x: Core, course: Course)
    requires InCourse(c, course) && Undecided(c, x)
    ensures InCourse(x, course)
  {}

  /** One line moves the state as it moves the course, whether or not it throws. */
  lemma DecodeInCourse(p: Pair, line: Line, course: Course)
    requires InCourse(p.c, course)
    ensures InCourse(Decode(p, line).p.c, Go(course, line))
  {
    hide EnsureStarted, InCourse, DecodeOpened, Go;
    if !line.Blank? {
      OpensUndecided(p);
      StaysInCourse(p.c, EnsureStarted(p).c, course);
      OpenedInCourse(EnsureStarted(p), line, course);
    } else {
      BlankStays(course, line);
    }
  }

  lemma BlankStays(course: Course, line: Line)
    requires line.Blank?
    ensures Go(course, line) == course
  {}

  lemma OpenedInCourse(p: Pair, line: Line, course: Course)
    requires InCourse(p.c, course) && !line.Blank?
    ensures InCourse(DecodeOpened(p, line).p.c, Go(course, line))
  {
    hide Notify, EmitText, ResolveModel, AssistantBlocks, UserBlocks, ReportQuota, ReportUsage, Fail, Ending, Name;
    match line
    case SystemInit(model) => NamesModel(p.c, course, model, Silent);
    case Assistant(model, at, content) =>
      var named := if model == "" then p else Pair(p.d, ResolveModel(p.c, model, at));
      NamesModel(p.c, course, model, at);
      if content.Blocks? { BlocksUndecided(named, content.blocks, at); }
    case User(at, content) => if content.Blocks? { BlocksUndecided(p, content.blocks, at); }
    case RateLimit(blocks) =>
      NotifyUndecided(p.c, UnknownEvent, Silent);
      EndsDecided(ReportQuota(p.c, Silent), QuotaExhausted, Silent, false, false);
    case Result(at, usage, failed, quota) => EndsDecided(TellUsage(p, at, usage).c, BackendFailure, at, failed, quota);
    case ResultNameless(at, usage) => if usage.Some? { UsageUndecided(p.c, MapUsage(usage.value, p.d.delta), usage.value.faulty, at); }
    case StreamText(thinking, text) => TextUndecided(p.c, thinking, text, Silent);
    case Prose => NotifyUndecided(p.c, NonJson, Silent);
    case _ => NotifyUndecided(p.c, UnknownEvent, Silent);
  }

  lemma {:induction false} AfterInCourse(p: Pair, done: seq<Line>, lines: seq<Line>)
    requires InCourse(p.c, CourseOf(done))
    ensures InCourse(After(p, lines).c, CourseOf(done + lines))
    decreases |lines|
  {
    hide Decode, InCourse, Go;
    if lines == [] {
      assert done + lines == done;
    } else {
      DecodeInCourse(p, lines[0], CourseOf(done));
      assert (done + [lines[0]])[..|done|] == done;
      AfterInCourse(Decode(p, lines[0]).p, done + [lines[0]], lines[1..]);
      assert done + [lines[0]] + lines[1..] == done + lines;
    }
  }

  lemma {:induction false} AfterStarted(p: Pair, lines: seq<Line>)
    ensures After(p, lines).d.started <==> p.d.started || exists i :: 0 <= i < |lines| && !lines[i].Blank?
    decreases |lines|
  {
    hide Decode;
    if lines != [] {
      DecodeStarts(p, lines[0]);
      AfterStarted(Decode(p, lines[0]).p, lines[1..]);
      if i :| 0 <= i < |lines| && !lines[i].Blank? { if i > 0 { assert lines[1..][i - 1] == lines[i]; } }
      if i :| 0 <= i < |lines[1..]| && !lines[1..][i].Blank? { assert lines[i + 1] == lines[1..][i]; }
    }
  }

  lemma {:induction false} BlocksStay(p: Pair, blocks: seq<Block>, at: Clock)
    ensures AssistantBlocks(p, blocks, at).p.d.started == p.d.started && UserBlocks(p, blocks, at).p.d.started == p.d.started
    decreases |blocks|
  {
    hide ToolRequested, ToolCompleted;
    if blocks != [] {
      BlocksStay(AssistantBlock(p, blocks[0], at).p, blocks[1..], at);
      BlocksStay(UserBlock(p, blocks[0], at).p, blocks[1..], at);
    }
  }

  lemma DecodeStarts(p: Pair, line: Line)
    ensures Decode(p, line).p.d.started <==> p.d.started || !line.Blank?
  {
    hide Notify, EmitText, ResolveModel, AssistantBlocks, UserBlocks, ReportQuota, ReportUsage, Fail, Ending, Start, Plus;
    var q := EnsureStarted(p);
    match line
    case Assistant(model, at, content) =>
      if content.Blocks? { BlocksStay(if model == "" then q else Pair(q.d, ResolveModel(q.c, model, at)), content.blocks, at); }
    case User(at, content) => if content.Blocks? { BlocksStay(q, content.blocks, at); }
    case _ =>
  }

  // ----- what the first throwing line takes

  lemma StampedTerminal(q: Pair, x: Pair)
    requires Ready(q) && Steady(x) && Moves(q, x)
    ensures Settles(Since(q.c, x.c)) <==> x.c.terminal && !q.c.terminal
  {
    hide Good, WellFormed;
    ReadyGood(q);
    ReadyGood(x);
    AliveSettles(q.c);
    AliveSettles(x.c);
    Continues(q, x);
    SettlesEither(q.c.log, Since(q.c, x.c));
    NothingSettles();
  }

  lemma SettlesEither(a: seq<Event>, b: seq<Event>)
    ensures Settles(a + b) <==> Settles(a) || Settles(b)
  {
    if e :| e in a && IsTerminal(e.body) { assert e in a + b; }
    if e :| e in b && IsTerminal(e.body) { assert e in a + b; }
  }

  lemma StampedStart(q: Pair, x: Pair)
    requires Ready(q) && Steady(x) && Moves(q, x)
    ensures Starts(Since(q.c, x.c)) <==> x.d.started && !q.d.started
  {
    hide WellFormed;
    CountAppend(q.c.log, Since(q.c, x.c), TStarted);
    Continues(q, x);
    StartsIff(Since(q.c, x.c));
    StartedBoth(q);
    StartedBoth(x);
  }

  lemma StartedBoth(p: Pair)
    requires Steady(p)
    ensures CountOf(p.c.log, TStarted) == Bit(p.d.started)
  {}

  lemma OnlyAssistantsEnd(course: Course, line: Line)
    requires Throws(line) && course.Open?
    ensures Go(course, line).Over? <==> line.Assistant? && line.model != "" && Name(course, line.model).Over?
  {}

  /** What the first line that throws takes with it. */
  lemma FaultTakes(maxBytes: nat, maxEvents: nat, lines: seq<Line>, k: nat)
    requires FirstThrow(lines, k)
    ensures var lost := Lost(NewRun(maxBytes, maxEvents), lines);
      (Settles(lost) <==> TakesTerminal(lines, k)) && (Starts(lost) <==> TakesStart(lines, k))
  {
    hide Ready, Steady, Moves, Decode, NewRun, Lost, Settles, Starts, Go, InCourse, CourseOf, Name, Throws;
    var start := NewRun(maxBytes, maxEvents);
    var q := After(start, lines[..k]);
    LostIsWhatTheFaultStamped(maxBytes, maxEvents, lines, k);
    ReadyThere(maxBytes, maxEvents, lines, k);
    var x := Decode(q, lines[k]).p;
    DecodeKeeps(q, lines[k]);
    StampedTerminal(q, x);
    StampedStart(q, x);
    CourseThere(maxBytes, maxEvents, lines, k);
    DecodeInCourse(q, lines[k], CourseOf(lines[..k]));
    CourseSays(q.c, CourseOf(lines[..k]));
    CourseSays(x.c, Go(CourseOf(lines[..k]), lines[k]));
    if CourseOf(lines[..k]).Open? { OnlyAssistantsEnd(CourseOf(lines[..k]), lines[k]); }
    AfterStarted(start, lines[..k]);
    DecodeStarts(q, lines[k]);
    ThrowsIsNotBlank(lines[k]);
    NewIsSilent(maxBytes, maxEvents);
    assert (forall i :: 0 <= i < k ==> lines[i].Blank?) <==> forall i :: 0 <= i < k ==> lines[..k][i].Blank?;
  }

  lemma ThrowsIsNotBlank(line: Line)
    requires Throws(line)
    ensures !line.Blank?
  {}

  lemma CourseSays(c: Core, course: Course)
    requires InCourse(c, course)
    ensures course.Over? <==> c.terminal
  {}

  lemma NewIsSilent(maxBytes: nat, maxEvents: nat)
    ensures !NewRun(maxBytes, maxEvents).d.started && InCourse(NewRun(maxBytes, maxEvents).c, CourseOf([]))
  {}

  lemma CourseThere(maxBytes: nat, maxEvents: nat, lines: seq<Line>, k: nat)
    requires k <= |lines|
    ensures InCourse(After(NewRun(maxBytes, maxEvents), lines[..k]).c, CourseOf(lines[..k]))
  {
    hide InCourse, NewRun, After;
    NewIsSilent(maxBytes, maxEvents);
    AfterInCourse(NewRun(maxBytes, maxEvents), [], lines[..k]);
    assert [] + lines[..k] == lines[..k];
  }

  lemma ReadyThere(maxBytes: nat, maxEvents: nat, lines: seq<Line>, k: nat)
    requires k <= |lines| && forall i :: 0 <= i < k ==> !Throws(lines[i])
    ensures Ready(After(NewRun(maxBytes, maxEvents), lines[..k]))
  {
    hide Ready, NewRun, After, Throws;
    NewRunIsReady(maxBytes, maxEvents);
    ReadTo(NewRun(maxBytes, maxEvents), lines, k, []);
  }

  lemma {:induction false} SomeFirst(lines: seq<Line>) returns (k: nat)
    ensures k <= |lines| && (forall i :: 0 <= i < k ==> !Throws(lines[i])) && (k < |lines| ==> FirstThrow(lines, k))
  {
    k := 0;
    while k < |lines| && !Throws(lines[k])
      invariant k <= |lines| && forall i :: 0 <= i < k ==> !Throws(lines[i])
    {
      k := k + 1;
    }
  }

  lemma OneFirst(lines: seq<Line>, j: nat, k: nat)
    requires FirstThrow(lines, j) && FirstThrow(lines, k)
    ensures j == k
  {}

  /**
   For any lines, any end of the stream, any abort and any limits, the consumer sees exactly one terminal, and it last,
   unless the first line that throws names, on a run still open, a model that cannot be represented or is not the one
   named before; and sees run.started first and once unless that line is the first that is not blank.
  */
  lemma PromiseKeptIff(maxBytes: nat, maxEvents: nat, lines: seq<Line>, stop: Stop, exit: Option<int>)
    ensures var events := Parse(NewRun(maxBytes, maxEvents), lines, stop, exit);
      && (EndsOnce(events) <==> !exists k :: FirstThrow(lines, k) && TakesTerminal(lines, k))
      && (OpensOnce(events) <==> !exists k :: FirstThrow(lines, k) && TakesStart(lines, k))
  {
    hide Ready, Parse, Lost, NewRun, EndsOnce, OpensOnce, Settles, Starts, TakesTerminal, TakesStart, FirstThrow;
    var start := NewRun(maxBytes, maxEvents);
    NewRunIsReady(maxBytes, maxEvents);
    EndsOnceIff(start, lines, stop, exit);
    OpensOnceIff(start, lines, stop, exit);
    var k := SomeFirst(lines);
    forall j: nat | k < |lines| && FirstThrow(lines, j) ensures j == k { OneFirst(lines, j, k); }
    if k < |lines| {
      FaultTakes(maxBytes, maxEvents, lines, k);
    } else {
      LostIsWhatTheFaultStamped(maxBytes, maxEvents, lines, k);
      NothingTaken(lines);
    }
  }

  lemma NothingTaken(lines: seq<Line>)
    requires forall i :: 0 <= i < |lines| ==> !Throws(lines[i])
    ensures (forall k :: !FirstThrow(lines, k)) && !Settles([]) && !Starts([])
  {}
}
