/** One line of the Claude stream into events: what the decoder calls on the sequencer, and where it can throw. */
module ClaudeStream {
  import opened Text
  import opened Budgets
  import opened Sequencing
  import opened SequencingKept

  /** A content block; reading a null block throws. */
  datatype Block = NullBlock | ToolUse(id: string) | ToolResult(id: string, failed: bool) | OtherBlock

  /** A message's content; iterating anything but a list or a string throws. */
  datatype Content = Unlistable | Blocks(blocks: seq<Block>)

  /** A terminal's usage block: the counts that read, whether something did not, and whether the block itself settles
      reasoning, because it states a figure, readable or not, or is no block at all. */
  datatype Report = Report(counts: Counts, faulty: bool, settlesReasoning: bool)

  /** A line of stdout as the decoder reads it. */
  datatype Line =
    | Blank
    | Prose                                      // not JSON, or a bare JSON value
    | SystemStatus
    | SystemInit(model: string)
    | SystemOther
    | StreamUsage(counts: Counts)
    | StreamText(thinking: bool, text: string)
    | StreamQuiet
    | StreamNull                                 // a null event or delta: reading it throws
    | Assistant(model: string, at: Clock, content: Content)
    | User(at: Clock, content: Content)
    | RateLimit(blocks: bool)
    | Result(at: Clock, usage: Option<Report>, failed: bool, quota: bool)
    | ResultNameless(at: Clock, usage: Option<Report>)  // a failure whose subtype has no text: naming it throws, after the usage
    | Unrecognized

  datatype Decoder = Decoder(started: bool, open: set<string>, delta: Option<Counts>, reported: bool)

  /** The decoder and the sequencer it drives. */
  datatype Pair = Pair(d: Decoder, c: Core)

  /** What decoding a line did, and whether it got to the end of the line. */
  datatype Step = Step(p: Pair, finished: bool)

  function EnsureStarted(p: Pair): Pair {
    if p.d.started then p else Pair(p.d.(started := true), Start(p.c))
  }

  // ----- usage

  function Plus(a: Counts, b: Counts): Counts {
    map f | f in a.Keys + b.Keys :: (if f in a then a[f] else 0) + (if f in b then b[f] else 0)
  }

  function Accumulate(d: Decoder, counts: Counts): Decoder {
    d.(delta := Some(if d.delta.Some? then Plus(d.delta.value, counts) else counts))
  }

  /** The terminal's own block; the deltas only supply reasoning it says nothing about. */
  function MapUsage(report: Report, delta: Option<Counts>): Counts {
    if Reasoning !in report.counts && !report.settlesReasoning && delta.Some? && Reasoning in delta.value
    then report.counts[Reasoning := delta.value[Reasoning]] else report.counts
  }

  function FlushUsage(p: Pair): Pair {
    if p.d.reported || p.d.delta.None? then p
    else Pair(p.d.(reported := true), ReportUsage(p.c, p.d.delta.value, false, Silent))
  }

  // ----- one line

  /** A tool call the decoder has not opened yet is opened; a null block throws. */
  function AssistantBlock(p: Pair, block: Block, at: Clock): Step {
    match block
    case NullBlock => Step(p, false)
    case ToolUse(id) =>
      Step(if id == "" || id in p.d.open then p else Pair(p.d.(open := p.d.open + {id}), ToolRequested(p.c, id, at)), true)
    case _ => Step(p, true)
  }

  function AssistantBlocks(p: Pair, blocks: seq<Block>, at: Clock): Step
    decreases |blocks|
  {
    if blocks == [] then Step(p, true)
    else
      var step := AssistantBlock(p, blocks[0], at);
      if step.finished then AssistantBlocks(step.p, blocks[1..], at) else step
  }

  function UserBlock(p: Pair, block: Block, at: Clock): Step {
    match block
    case NullBlock => Step(p, false)
    case ToolResult(id, failed) =>
      Step(if id == "" then p else Pair(p.d.(open := p.d.open - {id}), ToolCompleted(p.c, id, if failed then Error else Fine, at)), true)
    case _ => Step(p, true)
  }

  function UserBlocks(p: Pair, blocks: seq<Block>, at: Clock): Step
    decreases |blocks|
  {
    if blocks == [] then Step(p, true)
    else
      var step := UserBlock(p, blocks[0], at);
      if step.finished then UserBlocks(step.p, blocks[1..], at) else step
  }

  function DecodeAssistant(p: Pair, model: string, at: Clock, content: Content): Step {
    var named := if model == "" then p else Pair(p.d, ResolveModel(p.c, model, at));
    match content
    case Unlistable => Step(named, false)
    case Blocks(blocks) => AssistantBlocks(named, blocks, at)
  }

  function DecodeRateLimit(c: Core, blocks: bool): Core {
    var seen := ReportQuota(c, Silent);
    if blocks then Fail(seen, QuotaExhausted, Silent) else seen
  }

  function TellUsage(p: Pair, at: Clock, usage: Option<Report>): Pair {
    if usage.None? then p
    else Pair(p.d.(reported := true), ReportUsage(p.c, MapUsage(usage.value, p.d.delta), usage.value.faulty, at))
  }

  function DecodeResult(p: Pair, at: Clock, usage: Option<Report>, failed: bool, quota: bool): Pair {
    var told := TellUsage(p, at, usage);
    Pair(told.d, Ending(told.c, at, failed, quota))
  }

  function Ending(c: Core, at: Clock, failed: bool, quota: bool): Core {
    if !failed then Complete(c, at)
    else if quota then Fail(ReportQuota(c, at), QuotaExhausted, at)
    else Fail(c, BackendFailure, at)
  }

  function DecodeOpened(p: Pair, line: Line): Step {
    match line
    case Blank => Step(p, true)
    case Prose => Step(Pair(p.d, Notify(p.c, NonJson, Silent)), true)
    case SystemStatus => Step(p, true)
    case SystemInit(model) => Step(Pair(p.d, ResolveModel(p.c, model, Silent)), true)
    case SystemOther => Step(Pair(p.d, Notify(p.c, UnknownEvent, Silent)), true)
    case StreamUsage(counts) => Step(Pair(Accumulate(p.d, counts), p.c), true)
    case StreamText(thinking, text) => Step(Pair(p.d, EmitText(p.c, thinking, text, Silent)), true)
    case StreamQuiet => Step(p, true)
    case StreamNull => Step(p, false)
    case Assistant(model, at, content) => DecodeAssistant(p, model, at, content)
    case User(at, Unlistable) => Step(p, false)
    case User(at, Blocks(blocks)) => UserBlocks(p, blocks, at)
    case RateLimit(blocks) => Step(Pair(p.d, DecodeRateLimit(p.c, blocks)), true)
    case Result(at, usage, failed, quota) => Step(DecodeResult(p, at, usage, failed, quota), true)
    case ResultNameless(at, usage) => Step(TellUsage(p, at, usage), false)
    case Unrecognized => Step(Pair(p.d, Notify(p.c, UnknownEvent, Silent)), true)
  }

  /** decode: a line that is not blank opens the run before anything else. */
  function Decode(p: Pair, line: Line): Step {
    if line.Blank? then Step(p, true) else DecodeOpened(EnsureStarted(p), line)
  }

  // ----- what every line keeps

  /** Not yet opened, or alive; and a usage event only where one was reported. */
  ghost predicate Steady(p: Pair) {
    && (if p.d.started then Alive(p.c) else Good(p.c) && !p.c.started && !p.c.terminal)
    && CountOf(p.c.log, TUsage) <= Bit(p.d.reported)
  }

  /** And none still to come once one was reported. */
  ghost predicate Ready(p: Pair) {
    Steady(p) && (p.d.reported ==> p.c.terminal)
  }

  /** What one step may do: add events, and nothing once the run has ended. */
  ghost predicate Moves(p: Pair, q: Pair) {
    p.c.log <= q.c.log && SameLimits(p.c, q.c) && (p.c.terminal ==> q.c == p.c) && (p.d.started ==> q.d.started)
  }

  /** A call that reports no usage keeps the pair ready. */
  lemma Called(p: Pair, q: Pair)
    requires Ready(p) && p.d.started && Advances(p.c, q.c, 0) && q.d.started && q.d.reported == p.d.reported
    ensures Ready(q) && Moves(p, q)
  {}

  lemma OpenedReady(p: Pair)
    requires Steady(p)
    ensures var q := EnsureStarted(p);
      && Steady(q) && Moves(p, q) && q.d.started && q.d.reported == p.d.reported && q.d.delta == p.d.delta && (Ready(p) ==> Ready(q))
  {
    if !p.d.started {
      StartKeeps(p.c);
      NothingYet(p.c);
    }
  }

  lemma BlockKeeps(p: Pair, block: Block, at: Clock)
    requires Ready(p) && p.d.started
    ensures var q := AssistantBlock(p, block, at).p; Ready(q) && Moves(p, q) && q.d.delta == p.d.delta
    ensures var q := UserBlock(p, block, at).p; Ready(q) && Moves(p, q) && q.d.delta == p.d.delta
  {
    hide Advances, Alive, ToolRequested, ToolCompleted;
    ReadyAlive(p);
    match block
    case ToolUse(id) =>
      AnyCall(p.c, id, false, at);
      Called(p, Pair(p.d.(open := p.d.open + {id}), ToolRequested(p.c, id, at)));
    case ToolResult(id, failed) =>
      AnyCall(p.c, id, failed, at);
      Called(p, Pair(p.d.(open := p.d.open - {id}), ToolCompleted(p.c, id, if failed then Error else Fine, at)));
    case _ =>
  }

  lemma {:induction false} AssistantKeeps(p: Pair, blocks: seq<Block>, at: Clock)
    requires Ready(p) && p.d.started
    ensures Ready(AssistantBlocks(p, blocks, at).p) && Moves(p, AssistantBlocks(p, blocks, at).p)
    decreases |blocks|
  {
    hide Ready, AssistantBlock;
    if blocks != [] {
      BlockKeeps(p, blocks[0], at);
      var step := AssistantBlock(p, blocks[0], at);
      if step.finished { AssistantKeeps(step.p, blocks[1..], at); }
    }
  }

  lemma ReadyAlive(p: Pair)
    requires Steady(p) && p.d.started
    ensures Alive(p.c)
  {}

  lemma {:induction false} UserKeeps(p: Pair, blocks: seq<Block>, at: Clock)
    requires Ready(p) && p.d.started
    ensures Ready(UserBlocks(p, blocks, at).p) && Moves(p, UserBlocks(p, blocks, at).p)
    decreases |blocks|
  {
    hide Ready, UserBlock;
    if blocks != [] {
      BlockKeeps(p, blocks[0], at);
      var step := UserBlock(p, blocks[0], at);
      if step.finished { UserKeeps(step.p, blocks[1..], at); }
    }
  }

  lemma AssistantLineKeeps(p: Pair, model: string, at: Clock, content: Content)
    requires Ready(p) && p.d.started
    ensures Ready(DecodeAssistant(p, model, at, content).p) && Moves(p, DecodeAssistant(p, model, at, content).p)
  {
    hide Ready, Advances, Alive;
    var named := if model == "" then p else Pair(p.d, ResolveModel(p.c, model, at));
    if model != "" {
      ReadySteady(p);
      ReadyAlive(p);
      AnyResolve(p.c, model, at);
      Called(p, named);
    }
    if content.Blocks? { AssistantKeeps(named, content.blocks, at); }
  }

  lemma RateLimitKeeps(c: Core, blocks: bool)
    requires Alive(c)
    ensures Advances(c, DecodeRateLimit(c, blocks), 0)
  {
    hide Alive, ReportQuota, Fail;
    AnyQuota(c, Silent);
    if blocks { AnyEnd(ReportQuota(c, Silent), QuotaExhausted, Silent); }
  }

  /** Once a usage block is told, the pair is ready again only when the run has ended. */
  lemma ToldThenEnded(p: Pair, told: Pair, x: Core)
    requires Ready(p) && p.d.started && told.d.started && told.d.reported
    requires Advances(p.c, told.c, 1) && Advances(told.c, x, 0) && Ended(x)
    ensures Ready(Pair(told.d, x)) && Moves(p, Pair(told.d, x)) && x.terminal
  {}

  lemma EndedReady(p: Pair, x: Core)
    requires Ready(p) && p.d.started && Advances(p.c, x, 0) && Ended(x)
    ensures Ready(Pair(p.d, x)) && Moves(p, Pair(p.d, x)) && x.terminal
  {}

  lemma AdvancesTwice(c: Core, x: Core, y: Core)
    requires Advances(c, x, 0) && Advances(x, y, 0)
    ensures Advances(c, y, 0)
  {}

  lemma EndingKeeps(c: Core, at: Clock, failed: bool, quota: bool)
    requires Alive(c)
    ensures Advances(c, Ending(c, at, failed, quota), 0) && Ended(Ending(c, at, failed, quota))
  {
    hide Advances, Ended, Complete, Fail, ReportQuota;
    AnyEnd(c, BackendFailure, at);
    AnyQuota(c, at);
    AdvancesAlive(c, ReportQuota(c, at), 0);
    AnyEnd(ReportQuota(c, at), QuotaExhausted, at);
    AdvancesTwice(c, ReportQuota(c, at), Fail(ReportQuota(c, at), QuotaExhausted, at));
  }

  lemma AdvancesAlive(c: Core, x: Core, n: nat)
    requires Advances(c, x, n)
    ensures Alive(x)
  {}

  /** The result line reports usage at most once and always ends the run. */
  lemma ResultKeeps(p: Pair, at: Clock, usage: Option<Report>, failed: bool, quota: bool)
    requires Ready(p) && p.d.started
    ensures var q := DecodeResult(p, at, usage, failed, quota); Ready(q) && Moves(p, q) && q.c.terminal
  {
    hide Moves, Advances, Ended, Alive, ReportUsage, Complete, Fail, ReportQuota, Steady;
    ReadyAlive(p);
    if usage.None? {
      EndingKeeps(p.c, at, failed, quota);
      EndedReady(p, Ending(p.c, at, failed, quota));
    } else {
      var told := TellUsage(p, at, usage);
      AnyUsage(p.c, MapUsage(usage.value, p.d.delta), usage.value.faulty, at);
      AdvancesAlive(p.c, told.c, 1);
      EndingKeeps(told.c, at, failed, quota);
      ToldThenEnded(p, told, Ending(told.c, at, failed, quota));
    }
  }

  /** A failure that cannot be named tells its usage and then throws: the run is still open, its usage reported. */
  lemma ToldKeeps(p: Pair, at: Clock, usage: Option<Report>)
    requires Ready(p) && p.d.started
    ensures Steady(TellUsage(p, at, usage)) && Moves(p, TellUsage(p, at, usage))
  {
    hide ReportUsage, Good, WellFormed;
    if usage.Some? { AnyUsage(p.c, MapUsage(usage.value, p.d.delta), usage.value.faulty, at); }
  }

  lemma SimpleKeeps(p: Pair, line: Line)
    requires Ready(p) && p.d.started && !line.Assistant? && !line.User? && !line.Result? && !line.ResultNameless?
    ensures Ready(DecodeOpened(p, line).p) && Moves(p, DecodeOpened(p, line).p)
  {
    hide Good, WellFormed, EmitText, ResolveModel, Notify, DecodeRateLimit;
    match line
    case SystemInit(model) => AnyResolve(p.c, model, Silent);
    case StreamText(thinking, text) => AnyText(p.c, thinking, text);
    case RateLimit(blocks) => RateLimitKeeps(p.c, blocks);
    case Prose => AnyNotify(p.c, NonJson, Silent);
    case _ => AnyNotify(p.c, UnknownEvent, Silent);
  }

  lemma ReadySteady(p: Pair)
    requires Ready(p)
    ensures Steady(p)
  {}

  lemma OpenedLineKeeps(p: Pair, line: Line)
    requires Ready(p) && p.d.started
    ensures var step := DecodeOpened(p, line); Steady(step.p) && Moves(p, step.p) && (step.finished ==> Ready(step.p))
  {
    hide Ready, Steady, DecodeAssistant, UserBlocks, DecodeResult, TellUsage;
    if !line.ResultNameless? { OpenedLineReady(p, line); ReadySteady(DecodeOpened(p, line).p); } else { ToldKeeps(p, line.at, line.usage); }
  }

  lemma OpenedLineReady(p: Pair, line: Line)
    requires Ready(p) && p.d.started && !line.ResultNameless?
    ensures Ready(DecodeOpened(p, line).p) && Moves(p, DecodeOpened(p, line).p)
  {
    hide Ready, DecodeAssistant, UserBlocks, DecodeResult;
    match line
    case Assistant(model, at, content) => AssistantLineKeeps(p, model, at, content);
    case User(at, content) => if content.Blocks? { UserKeeps(p, content.blocks, at); }
    case Result(at, usage, failed, quota) => ResultKeeps(p, at, usage, failed, quota);
    case _ => SimpleKeeps(p, line);
  }

  lemma MovesOn(p: Pair, q: Pair, r: Pair)
    requires Moves(p, q) && Moves(q, r)
    ensures Moves(p, r)
  {}

  /** Decoding any line, to its end or to where it throws, keeps the run's invariants and only adds events. */
  lemma DecodeKeeps(p: Pair, line: Line)
    requires Ready(p)
    ensures var step := Decode(p, line); Steady(step.p) && Moves(p, step.p) && (step.finished ==> Ready(step.p))
  {
    hide Ready, Steady, DecodeOpened, EnsureStarted;
    ReadySteady(p);
    if !line.Blank? {
      OpenedReady(p);
      OpenedLineKeeps(EnsureStarted(p), line);
      MovesOn(p, EnsureStarted(p), DecodeOpened(EnsureStarted(p), line).p);
    }
  }

  // ----- usage sums

  function Reported(lines: seq<Line>, f: Field): nat {
    if lines == [] then 0
    else Reported(lines[..|lines| - 1], f)
         + (var last := lines[|lines| - 1]; if last.StreamUsage? && f in last.counts then last.counts[f] else 0)
  }

  predicate Mentioned(lines: seq<Line>, f: Field) {
    exists i :: 0 <= i < |lines| && lines[i].StreamUsage? && f in lines[i].counts
  }

  /** What the deltas have added up to: each field's sum, and no entry for a field no delta reported. */
  ghost predicate Sums(d: Decoder, lines: seq<Line>) {
    && (d.delta.None? ==> forall i :: 0 <= i < |lines| ==> !lines[i].StreamUsage?)
    && (d.delta.Some? ==> forall f :: (f in d.delta.value <==> Mentioned(lines, f))
                                     && (f in d.delta.value ==> d.delta.value[f] == Reported(lines, f)))
  }

  lemma {:induction false} DeltaUntouched(p: Pair, blocks: seq<Block>, at: Clock)
    ensures AssistantBlocks(p, blocks, at).p.d.delta == p.d.delta && UserBlocks(p, blocks, at).p.d.delta == p.d.delta
    decreases |blocks|
  {
    if blocks != [] {
      DeltaUntouched(AssistantBlock(p, blocks[0], at).p, blocks[1..], at);
      DeltaUntouched(UserBlock(p, blocks[0], at).p, blocks[1..], at);
    }
  }

  lemma DeltaAfter(p: Pair, line: Line)
    ensures Decode(p, line).p.d.delta == (if line.StreamUsage? then Accumulate(p.d, line.counts).delta else p.d.delta)
  {
    var q := EnsureStarted(p);
    match line
    case Assistant(model, at, content) =>
      var named := if model == "" then q else Pair(q.d, ResolveModel(q.c, model, at));
      if content.Blocks? { DeltaUntouched(named, content.blocks, at); }
    case User(at, content) => if content.Blocks? { DeltaUntouched(q, content.blocks, at); }
    case _ =>
  }

  /** The delta sum is exact after every line. */
  lemma SumsKept(p: Pair, lines: seq<Line>, line: Line)
    requires Sums(p.d, lines)
    ensures Sums(Decode(p, line).p.d, lines + [line])
  {
    var all := lines + [line];
    assert all[..|lines|] == lines;
    DeltaAfter(p, line);
    forall f ensures Mentioned(all, f) <==> Mentioned(lines, f) || (line.StreamUsage? && f in line.counts) {
      if Mentioned(lines, f) { var i :| 0 <= i < |lines| && lines[i].StreamUsage? && f in lines[i].counts; assert all[i] == lines[i]; }
      if line.StreamUsage? && f in line.counts { assert all[|lines|] == line; }
    }
    forall f | !Mentioned(lines, f) ensures Reported(lines, f) == 0 { Unmentioned(lines, f); }
  }

  lemma {:induction false} Unmentioned(lines: seq<Line>, f: Field)
    requires !Mentioned(lines, f)
    ensures Reported(lines, f) == 0
  {
    if lines != [] {
      var init := lines[..|lines| - 1];
      forall i | 0 <= i < |init| ensures !(init[i].StreamUsage? && f in init[i].counts) { assert lines[i] == init[i]; }
      Unmentioned(init, f);
    }
  }
}
