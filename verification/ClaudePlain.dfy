/** The reading of a run without budgets or clocks: what each line says, and what is left for the host to say. */
module ClaudePlain {
  import opened Text
  import opened Budgets
  import opened Sequencing
  import opened SequencingKept
  import opened ClaudeStream
  import opened ClaudeRun
  import opened ClaudePromise
  import opened ClaudeCourse
  import opened ClaudeEnding

  /** What has been said, and what is needed to go on: the model, the calls open and how many there were, the usage so far. */
  datatype Plain = Plain(begun: bool, over: bool, model: Option<string>, calls: seq<(string, nat)>, count: nat,
                         usage: Option<Counts>, told: bool, said: seq<Payload>)

  const NOTHING := Plain(false, false, None, [], 0, None, false, [])

  function Say(p: Plain, body: Payload): Plain {
    if p.over then p else p.(said := p.said + [body])
  }

  function Settlements(calls: seq<(string, nat)>, outcome: Outcome): seq<Payload> {
    if calls == [] then [] else [Settled(calls[0].1, outcome)] + Settlements(calls[1..], outcome)
  }

  /** The last word: every open call settled first, oldest first. */
  function Close(p: Plain, body: Payload, outcome: Outcome): Plain {
    if p.over then p else p.(over := true, calls := [], said := p.said + Settlements(p.calls, outcome) + [body])
  }

  function Model(p: Plain, model: string): Plain {
    if p.over then p
    else if !Representable(model) then Close(p, Failed(ModelUnresolved), Error)
    else if p.model.None? then p.(model := Some(model), said := p.said + [Resolved(model)])
    else if p.model.value == model then p
    else Close(p, Failed(ModelMismatch), Error)
  }

  /** A call opens once while it is open, under the next number. */
  function Call(p: Plain, id: string): Plain {
    if p.over || id == "" || (exists c :: c in p.calls && c.0 == id) then p
    else p.(count := p.count + 1, calls := p.calls + [(id, p.count + 1)], said := p.said + [Requested(p.count + 1)])
  }

  /** A result settles the call it names; a result no open call waits for is noted. */
  function Return(p: Plain, id: string, failed: bool): Plain {
    if p.over || id == "" then p
    else if exists c :: c in p.calls && c.0 == id then
      p.(calls := Without(p.calls, id), said := p.said + [Settled(NumberFor(p.calls, id), if failed then Error else Fine)])
    else Say(p, Noticed(UnknownEvent))
  }

  function Calls(p: Plain, blocks: seq<Block>): Plain
    decreases |blocks|
  {
    if blocks == [] then p else Calls(if blocks[0].ToolUse? then Call(p, blocks[0].id) else p, blocks[1..])
  }

  function Returns(p: Plain, blocks: seq<Block>): Plain
    decreases |blocks|
  {
    if blocks == [] then p else Returns(if blocks[0].ToolResult? then Return(p, blocks[0].id, blocks[0].failed) else p, blocks[1..])
  }

  /** The deltas add up, field by field. */
  function Added(a: Option<Counts>, b: Counts): Counts {
    if a.None? then b
    else map f | f in a.value.Keys + b.Keys :: (if f in a.value then a.value[f] else 0) + (if f in b then b[f] else 0)
  }

  /** A terminal's report; of the deltas only reasoning is taken over, where the report leaves it open. */
  function Usage(p: Plain, report: Report): Plain {
    var counts := if !report.settlesReasoning && Reasoning !in report.counts && p.usage.Some? && Reasoning in p.usage.value
                  then report.counts[Reasoning := p.usage.value[Reasoning]] else report.counts;
    Say(if report.faulty then Say(p, Noticed(MalformedUsage)) else p, Payload.Usage(counts)).(told := true)
  }

  function Begin(p: Plain): Plain {
    if p.begun then p else Say(p, Started).(begun := true)
  }

  /** One line, on a run that has begun. */
  function Read(p: Plain, line: Line): Plain {
    match line
    case Prose => Say(p, Noticed(NonJson))
    case SystemOther => Say(p, Noticed(UnknownEvent))
    case Unrecognized => Say(p, Noticed(UnknownEvent))
    case SystemInit(model) => Model(p, model)
    case StreamUsage(counts) => p.(usage := Some(Added(p.usage, counts)))
    case StreamText(thinking, text) => if text == "" then p else Say(p, Delta(thinking, text))
    case Assistant(model, _, Blocks(blocks)) => Calls(if model == "" then p else Model(p, model), blocks)
    case User(_, Blocks(blocks)) => Returns(p, blocks)
    case RateLimit(blocks) => if blocks then Close(Say(p, Quota), Failed(QuotaExhausted), Error) else Say(p, Quota)
    case Result(_, usage, failed, quota) =>
      var told := if usage.Some? then Usage(p, usage.value) else p;
      if !failed then Close(told, if told.model.Some? then Completed(None) else Failed(ModelUnresolved), Error)
      else if quota then Close(Say(told, Quota), Failed(QuotaExhausted), Error)
      else Close(told, Failed(BackendFailure), Error)
    case _ => p
  }

  function ReadLine(p: Plain, line: Line): Plain {
    if line.Blank? then p else Read(Begin(p), line)
  }

  function ReadLines(p: Plain, lines: seq<Line>): Plain
    decreases |lines|
  {
    if lines == [] then p else ReadLines(ReadLine(p, lines[0]), lines[1..])
  }

  /** The host's part, where no line ended the run: an opening, the usage nobody reported, and how the stream stopped. */
  function Host(p: Plain, stop: Stop): Plain {
    var q := Begin(p);
    var r := if q.told || q.usage.None? then q else Say(q, Payload.Usage(q.usage.value));
    if stop.aborted || (stop.broke && stop.cancellation) then Close(r, Cancelled, Dropped)
    else Close(r, Failed(if stop.broke then BackendFailure else TerminalMissing), Error)
  }

  function Told(lines: seq<Line>, stop: Stop): seq<Payload> {
    var p := ReadLines(NOTHING, lines);
    if p.over then p.said else Host(p, stop).said
  }

  // ----- hearing a run

  /** What a run's events say, the clock notice left out. */
  function Heard(log: seq<Event>): seq<Payload> {
    if log == [] then []
    else Heard(log[..|log| - 1]) + (if log[|log| - 1].body == Noticed(ClockSkew) then [] else [log[|log| - 1].body])
  }

  lemma HeardOne(log: seq<Event>, e: Event)
    ensures Heard(log + [e]) == Heard(log) + (if e.body == Noticed(ClockSkew) then [] else [e.body])
  {
    assert (log + [e])[..|log|] == log;
  }

  /** Nothing has been refused or cut. */
  ghost predicate Free(b: Budget) {
    !b.capped && !b.truncated && !b.pending
  }

  ghost predicate Uncapped(b: Budget) {
    !b.capped && !b.truncated
  }

  /** Once refused or cut, for good. */
  ghost predicate Latched(c: Core, x: Core) {
    (c.budget.capped ==> x.budget.capped) && (c.budget.truncated ==> x.budget.truncated)
  }

  /** x is c with this said on top, nothing else that a reading knows changed. */
  ghost predicate Adds(c: Core, x: Core, said: seq<Payload>) {
    && Heard(x.log) == Heard(c.log) + said && Free(x.budget)
    && x.terminal == c.terminal && x.resolved == c.resolved && x.attributed == c.attributed && x.open == c.open && x.toolCount == c.toolCount
    && x.started == c.started
  }

  lemma AddsThen(c: Core, x: Core, y: Core, a: seq<Payload>, b: seq<Payload>)
    requires Adds(c, x, a) && Adds(x, y, b)
    ensures Adds(c, y, a + b)
  {
    assert Heard(c.log) + a + b == Heard(c.log) + (a + b);
  }

  lemma ClockAdds(c: Core, at: Clock)
    ensures Latched(c, ClockAdvisory(c, at))
    ensures Free(c.budget) ==> Adds(c, ClockAdvisory(c, at), [])
  {
    var next := Clocked(c, at);
    HeardOne(c.log, Event(next.seqNo + 1, Noticed(ClockSkew)));
    assert Heard(c.log) + [] == Heard(c.log);
  }

  lemma OfferAdds(c: Core, body: Payload)
    requires body != Noticed(ClockSkew)
    ensures Latched(c, OfferEvent(c, body))
    ensures Free(c.budget) && Uncapped(OfferEvent(c, body).budget) ==> Adds(c, OfferEvent(c, body), [body])
  {
    HeardOne(c.log, Event(c.seqNo + 1, body));
  }

  lemma DrainAdds(c: Core)
    ensures Latched(c, DrainNotice(c)) && (Uncapped(DrainNotice(c).budget) <==> Uncapped(c.budget))
    ensures Free(c.budget) ==> Adds(c, DrainNotice(c), [])
  {
    assert Heard(c.log) + [] == Heard(c.log);
  }

  lemma OptionalAdds(c: Core, body: Payload, at: Clock)
    requires body != Noticed(ClockSkew)
    ensures Latched(c, Optional(c, body, at))
    ensures Free(c.budget) && Uncapped(Optional(c, body, at).budget) ==> Adds(c, Optional(c, body, at), [body])
  {
    hide ClockAdvisory, OfferEvent, DrainNotice, Adds;
    var a := ClockAdvisory(c, at);
    var b := OfferEvent(a, body);
    ClockAdds(c, at);
    OfferAdds(a, body);
    DrainAdds(b);
    AddsFree(c, a, []);
    AddsFree(a, b, [body]);
    if Free(c.budget) && Uncapped(DrainNotice(b).budget) {
      AddsThen(c, a, b, [], [body]);
      AddsThen(c, b, DrainNotice(b), [] + [body], []);
      assert [] + [body] + [] == [body];
    }
  }

  lemma AddsFree(c: Core, x: Core, said: seq<Payload>)
    ensures Adds(c, x, said) ==> Free(x.budget)
  {}

  // ----- the state a reading stands for

  /** Ids of the calls open. */
  function Ids(calls: seq<(string, nat)>): set<string> {
    set c | c in calls :: c.0
  }

  /** The sequencer and the plain reading agree. */
  ghost predicate Agrees(c: Core, p: Plain) {
    && c.terminal == p.over && c.resolved == p.model && c.open == p.calls && c.toolCount == p.count && c.attributed.None?
    && c.started == p.begun && Heard(c.log) == p.said && Free(c.budget)
  }

  /** And so does the decoder. */
  ghost predicate Matches(q: Pair, p: Plain) {
    Agrees(q.c, p) && q.d.started == p.begun && q.d.delta == p.usage && q.d.reported == p.told && (!p.over ==> q.d.open == Ids(p.calls))
  }

  lemma AgreesAfter(c: Core, x: Core, p: Plain, body: Payload)
    requires Agrees(c, p) && !c.terminal && Adds(c, x, [body])
    ensures Agrees(x, Say(p, body))
  {}

  lemma NotifySays(c: Core, p: Plain, notice: Notice, at: Clock)
    requires notice != ClockSkew
    ensures Latched(c, Notify(c, notice, at))
    ensures Agrees(c, p) && Uncapped(Notify(c, notice, at).budget) ==> Agrees(Notify(c, notice, at), Say(p, Noticed(notice)))
  {
    hide Optional, Adds;
    OptionalAdds(c, Noticed(notice), at);
    if Agrees(c, p) && Uncapped(Notify(c, notice, at).budget) && !c.terminal { AgreesAfter(c, Notify(c, notice, at), p, Noticed(notice)); }
  }

  lemma QuotaSays(c: Core, p: Plain, at: Clock)
    ensures Latched(c, ReportQuota(c, at))
    ensures Agrees(c, p) && Uncapped(ReportQuota(c, at).budget) ==> Agrees(ReportQuota(c, at), Say(p, Quota))
  {
    hide Optional, Adds;
    OptionalAdds(c, Quota, at);
    if Agrees(c, p) && Uncapped(ReportQuota(c, at).budget) && !c.terminal { AgreesAfter(c, ReportQuota(c, at), p, Quota); }
  }

  lemma UsageSays(c: Core, p: Plain, counts: Counts, faulty: bool, at: Clock)
    ensures Latched(c, ReportUsage(c, counts, faulty, at))
    ensures Agrees(c, p) && Uncapped(ReportUsage(c, counts, faulty, at).budget) ==>
      Agrees(ReportUsage(c, counts, faulty, at), Say(if faulty then Say(p, Noticed(MalformedUsage)) else p, Payload.Usage(counts)))
  {
    hide Optional, Adds, Notify;
    if !c.terminal {
      var a := if faulty then Notify(c, MalformedUsage, at) else c;
      var m := if faulty then Say(p, Noticed(MalformedUsage)) else p;
      NotifySays(c, p, MalformedUsage, at);
      OptionalAdds(a, Payload.Usage(counts), at);
      if Agrees(c, p) && Uncapped(Optional(a, Payload.Usage(counts), at).budget) { AgreesAfter(a, Optional(a, Payload.Usage(counts), at), m, Payload.Usage(counts)); }
    }
  }

  lemma StartSays(c: Core, p: Plain)
    requires !c.started
    ensures Latched(c, Start(c))
    ensures Agrees(c, p) && !c.terminal ==> Agrees(Start(c), Begin(p))
  {
    HeardOne(c.log, Event(c.seqNo + 1, Started));
  }

  lemma FittingWhole(value: string, limit: nat)
    requires Utf8.Length(value) <= limit
    ensures Utf8.Fitting(value, limit) == value
  {}

  /** A text that was not cut is said whole. */
  lemma FitAdds(c: Core, thinking: bool, value: string)
    requires value != ""
    ensures Latched(c, FitAndOffer(c, thinking, value))
    ensures Free(c.budget) && Uncapped(FitAndOffer(c, thinking, value).budget) ==> Adds(c, FitAndOffer(c, thinking, value), [Delta(thinking, value)])
  {
    var fitted := c.(budget := c.budget.Fitted(value));
    var fit := c.budget.FitText(value);
    OfferAdds(fitted, Delta(thinking, fit));
    if Free(c.budget) && Uncapped(FitAndOffer(c, thinking, value).budget) {
      assert !c.budget.Cuts(value);
      FittingWhole(value, c.budget.maxBytes - c.budget.textBytes);
    }
  }

  lemma TextSays(c: Core, p: Plain, thinking: bool, value: string, at: Clock)
    ensures Latched(c, EmitText(c, thinking, value, at))
    ensures Agrees(c, p) && Uncapped(EmitText(c, thinking, value, at).budget) ==>
      Agrees(EmitText(c, thinking, value, at), if value == "" then p else Say(p, Delta(thinking, value)))
  {
    hide ClockAdvisory, FitAndOffer, DrainNotice, Adds;
    if !c.terminal && value != "" {
      var a := ClockAdvisory(c, at);
      var b := FitAndOffer(a, thinking, value);
      ClockAdds(c, at);
      FitAdds(a, thinking, value);
      DrainAdds(b);
      AddsFree(c, a, []);
      AddsFree(a, b, [Delta(thinking, value)]);
      if Agrees(c, p) && Uncapped(DrainNotice(b).budget) {
        AddsThen(c, a, b, [], [Delta(thinking, value)]);
        AddsThen(c, b, DrainNotice(b), [] + [Delta(thinking, value)], []);
        assert [] + [Delta(thinking, value)] + [] == [Delta(thinking, value)];
        AgreesAfter(c, DrainNotice(b), p, Delta(thinking, value));
      }
    }
  }

  // ----- calls

  lemma OpenAdds(c: Core, id: string)
    ensures Latched(c, OpenCall(c, id))
    ensures Free(c.budget) && Uncapped(OpenCall(c, id).budget) && !IsOpen(c.open, id) ==>
      var x, n := OpenCall(c, id), c.toolCount + 1;
      && Heard(x.log) == Heard(c.log) + [Requested(n)] && Free(x.budget) && x.open == c.open + [(id, n)] && x.toolCount == n
      && x.terminal == c.terminal && x.resolved == c.resolved && x.attributed == c.attributed && x.started == c.started
    ensures IsOpen(c.open, id) ==> OpenCall(c, id) == c
  {
    hide Heard, IsOpen;
    HeardOne(c.log, Event(c.seqNo + 1, Requested(c.toolCount + 1)));
  }

  lemma CallSays(c: Core, p: Plain, id: string, at: Clock)
    ensures Latched(c, ToolRequested(c, id, at))
    ensures Agrees(c, p) && Uncapped(ToolRequested(c, id, at).budget) ==> Agrees(ToolRequested(c, id, at), Call(p, id))
  {
    hide ClockAdvisory, DrainNotice, OpenCall, Adds;
    if !c.terminal && id != "" {
      var a := ClockAdvisory(c, at);
      var b := OpenCall(a, id);
      ClockAdds(c, at);
      OpenAdds(a, id);
      DrainAdds(b);
      if Agrees(c, p) && Uncapped(DrainNotice(b).budget) { CallOpens(c, a, b, p, id); }
    }
  }

  lemma CallOpens(c: Core, a: Core, b: Core, p: Plain, id: string)
    requires Agrees(c, p) && !c.terminal && id != "" && Adds(c, a, []) && b == OpenCall(a, id) && Uncapped(b.budget)
    ensures Agrees(DrainNotice(b), Call(p, id))
  {
    hide DrainNotice, OpenCall;
    OpenAdds(a, id);
    DrainAdds(b);
    assert Heard(c.log) + [] == Heard(c.log) && Heard(b.log) + [] == Heard(b.log);
  }

  lemma SettleAdds(c: Core, call: nat, outcome: Outcome)
    ensures var x := Settle(c, call, outcome);
      && Latched(c, x) && Heard(x.log) == Heard(c.log) + [Settled(call, outcome)] && (Free(x.budget) <==> Free(c.budget))
      && x.open == c.open && x.toolCount == c.toolCount && x.terminal == c.terminal && x.resolved == c.resolved
      && x.attributed == c.attributed && x.started == c.started
      && (Uncapped(x.budget) <==> Uncapped(c.budget))
  {
    HeardOne(c.log, Event(c.seqNo + 1, Settled(call, outcome)));
  }

  lemma ReturnSays(c: Core, p: Plain, id: string, failed: bool, at: Clock)
    requires id != ""
    ensures Latched(c, ToolCompleted(c, id, if failed then Error else Fine, at))
    ensures Agrees(c, p) && Uncapped(ToolCompleted(c, id, if failed then Error else Fine, at).budget) ==>
      Agrees(ToolCompleted(c, id, if failed then Error else Fine, at), Return(p, id, failed))
  {
    hide Notify, Settle, NumberFor, Without;
    NotifySays(c, p, UnknownEvent, at);
    if IsOpen(c.open, id) { SettleAdds(c.(open := Without(c.open, id)), NumberFor(c.open, id), if failed then Error else Fine); }
  }

  // ----- endings

  lemma {:induction false} AllSettle(c: Core, outcome: Outcome)
    ensures var x := SettleAll(c, outcome);
      && Latched(c, x) && Heard(x.log) == Heard(c.log) + Settlements(c.open, outcome) && x.open == [] && (Free(x.budget) <==> Free(c.budget))
      && (Uncapped(x.budget) <==> Uncapped(c.budget))
      && x.terminal == c.terminal && x.resolved == c.resolved && x.attributed == c.attributed && x.started == c.started && x.toolCount == c.toolCount
    decreases |c.open|
  {
    hide Settle;
    if c.open == [] {
      assert Heard(c.log) + [] == Heard(c.log);
    } else {
      var one := Settle(c.(open := c.open[1..]), c.open[0].1, outcome);
      SettleAdds(c.(open := c.open[1..]), c.open[0].1, outcome);
      AllSettle(one, outcome);
      assert Heard(c.log) + [Settled(c.open[0].1, outcome)] + Settlements(c.open[1..], outcome)
          == Heard(c.log) + ([Settled(c.open[0].1, outcome)] + Settlements(c.open[1..], outcome));
    }
  }

  lemma TerminateSays(c: Core, a: Core, p: Plain, body: Payload, outcome: Outcome)
    requires Agrees(c, p) && !c.terminal && Adds(c, a, []) && body != Noticed(ClockSkew)
    ensures Agrees(Terminate(SettleAll(a, outcome), body), Close(p, body, outcome))
  {
    hide SettleAll;
    AllSettle(a, outcome);
    var x := SettleAll(a, outcome);
    HeardOne(x.log, Event(x.seqNo + 1, body));
    assert Heard(c.log) + [] == Heard(c.log);
  }

  lemma FailLatches(c: Core, code: ErrorCode, at: Clock)
    ensures Latched(c, Fail(c, code, at)) && Latched(c, Cancel(c))
  {
    hide SettleAll, ClockAdvisory;
    ClockAdds(c, at);
    AllSettle(ClockAdvisory(c, at), Error);
    AllSettle(c, Dropped);
  }

  lemma FailSaysPlain(c: Core, p: Plain, code: ErrorCode, at: Clock)
    requires Agrees(c, p)
    ensures Agrees(Fail(c, code, at), Close(p, Failed(code), Error))
  {
    hide SettleAll, ClockAdvisory, Terminate, Adds;
    ClockAdds(c, at);
    if !c.terminal { TerminateSays(c, ClockAdvisory(c, at), p, Failed(code), Error); }
  }

  lemma CancelSaysPlain(c: Core, p: Plain)
    requires Agrees(c, p)
    ensures Agrees(Cancel(c), Close(p, Cancelled, Dropped))
  {
    hide SettleAll, Terminate, Adds;
    if !c.terminal {
      NothingAdded(c);
      TerminateSays(c, c, p, Cancelled, Dropped);
    }
  }

  lemma NothingAdded(c: Core)
    requires Free(c.budget)
    ensures Adds(c, c, [])
  {
    assert Heard(c.log) + [] == Heard(c.log);
  }

  lemma CompleteSaysPlain(c: Core, p: Plain, at: Clock)
    ensures Latched(c, Complete(c, at))
    ensures Agrees(c, p) ==> Agrees(Complete(c, at), Close(p, if p.model.Some? then Completed(None) else Failed(ModelUnresolved), Error))
  {
    hide SettleAll, ClockAdvisory, Adds;
    ClockAdds(c, at);
    AllSettle(ClockAdvisory(c, at), Error);
    if Agrees(c, p) && !c.terminal {
      SameCore(c, ClockAdvisory(c, at));
      TerminateSays(c, ClockAdvisory(c, at), p, if p.model.Some? then Completed(None) else Failed(ModelUnresolved), Error);
    }
  }

  lemma SameCore(c: Core, x: Core)
    requires Adds(c, x, [])
    ensures x.resolved == c.resolved && x.attributed == c.attributed && x.terminal == c.terminal
  {}

  lemma ResolveSays(c: Core, p: Plain, model: string)
    ensures Latched(c, ResolveTo(c, model))
    ensures Agrees(c, p) && !c.terminal ==> Agrees(ResolveTo(c, model), p.(model := Some(model), said := p.said + [Resolved(model)]))
  {
    HeardOne(c.log, Event(c.seqNo + 1, Resolved(model)));
  }

  lemma ModelSaysPlain(c: Core, p: Plain, model: string, at: Clock)
    ensures Latched(c, ResolveModel(c, model, at))
    ensures Agrees(c, p) ==> Agrees(ResolveModel(c, model, at), Model(p, model))
  {
    hide Fail, Close, Representable, ResolveTo, Agrees, Latched;
    FailLatches(c, ModelUnresolved, at);
    FailLatches(c, ModelMismatch, at);
    ResolveSays(c, p, model);
    StaysLatched(c);
    if Agrees(c, p) {
      AgreesOn(c, p);
      FailSaysPlain(c, p, ModelUnresolved, at);
      FailSaysPlain(c, p, ModelMismatch, at);
    }
  }

  lemma AgreesOn(c: Core, p: Plain)
    requires Agrees(c, p)
    ensures c.terminal == p.over && c.resolved == p.model && c.open == p.calls && c.started == p.begun
  {}

  lemma StaysLatched(c: Core)
    ensures Latched(c, c)
  {}

  lemma LatchedThen(c: Core, x: Core, y: Core)
    requires Latched(c, x) && Latched(x, y)
    ensures Latched(c, y)
  {}

  lemma LatchedBack(c: Core, x: Core)
    requires Latched(c, x) && Uncapped(x.budget)
    ensures Uncapped(c.budget)
  {}

  // ----- blocks

  /** Where a run is not over, the decoder's open calls are the sequencer's. */
  ghost predicate Together(d: Decoder, c: Core) {
    !c.terminal ==> d.open == Ids(c.open)
  }

  lemma {:induction false} IdsWithout(open: seq<(string, nat)>, id: string)
    ensures Ids(Without(open, id)) == Ids(open) - {id}
  {
    if open != [] {
      IdsWithout(open[1..], id);
      assert open == [open[0]] + open[1..];
      IdsCons(open[0], open[1..]);
      IdsCons(open[0], Without(open[1..], id));
    }
  }

  lemma IdsCons(c: (string, nat), rest: seq<(string, nat)>)
    ensures Ids([c] + rest) == {c.0} + Ids(rest)
  {
    forall x | x in {c.0} + Ids(rest) ensures x in Ids([c] + rest) {
      if x == c.0 { assert c in [c] + rest; } else { var d :| d in rest && d.0 == x; assert d in [c] + rest; }
    }
  }

  lemma IdsOpen(open: seq<(string, nat)>, id: string)
    ensures id in Ids(open) <==> IsOpen(open, id)
    ensures id in Ids(open) <==> exists c :: c in open && c.0 == id
    ensures Ids(open + [(id, 0)]) == Ids(open) + {id} && forall n: nat :: Ids(open + [(id, n)]) == Ids(open) + {id}
  {
    forall n: nat ensures Ids(open + [(id, n)]) == Ids(open) + {id} {
      forall x | x in Ids(open) + {id} ensures x in Ids(open + [(id, n)]) {
        if x == id { assert (id, n) in open + [(id, n)]; } else { var d :| d in open && d.0 == x; assert d in open + [(id, n)]; }
      }
    }
  }

  lemma CallBlock(q: Pair, p: Plain, block: Block, at: Clock)
    requires !block.NullBlock?
    ensures Latched(q.c, AssistantBlock(q, block, at).p.c)
    ensures Matches(q, p) && Uncapped(AssistantBlock(q, block, at).p.c.budget) ==>
      Matches(AssistantBlock(q, block, at).p, if block.ToolUse? then Call(p, block.id) else p)
  {
    hide ToolRequested, Heard, Free, Ids;
    StaysLatched(q.c);
    if block.ToolUse? {
      CallSays(q.c, p, block.id, at);
      IdsOpen(q.c.open, block.id);
    }
  }

  lemma ReturnBlock(q: Pair, p: Plain, block: Block, at: Clock)
    requires !block.NullBlock?
    ensures Latched(q.c, UserBlock(q, block, at).p.c)
    ensures Matches(q, p) && Uncapped(UserBlock(q, block, at).p.c.budget) ==>
      Matches(UserBlock(q, block, at).p, if block.ToolResult? then Return(p, block.id, block.failed) else p)
  {
    hide ToolCompleted, Heard, Free, Ids, NumberFor, Without;
    StaysLatched(q.c);
    if block.ToolResult? && block.id != "" {
      ReturnSays(q.c, p, block.id, block.failed, at);
      IdsWithout(q.c.open, block.id);
      IdsOpen(q.c.open, block.id);
    }
  }

  lemma {:induction false} CallBlocks(q: Pair, p: Plain, blocks: seq<Block>, at: Clock)
    requires AssistantBlocks(q, blocks, at).finished
    ensures Latched(q.c, AssistantBlocks(q, blocks, at).p.c)
    ensures Matches(q, p) && Uncapped(AssistantBlocks(q, blocks, at).p.c.budget) ==> Matches(AssistantBlocks(q, blocks, at).p, Calls(p, blocks))
    decreases |blocks|
  {
    hide Matches, Latched, Call, Uncapped;
    StaysLatched(q.c);
    if blocks != [] {
      var one := AssistantBlock(q, blocks[0], at).p;
      CallBlock(q, p, blocks[0], at);
      var m := if blocks[0].ToolUse? then Call(p, blocks[0].id) else p;
      CallBlocks(one, m, blocks[1..], at);
      LatchedThen(q.c, one.c, AssistantBlocks(q, blocks, at).p.c);
      if Uncapped(AssistantBlocks(q, blocks, at).p.c.budget) { LatchedBack(one.c, AssistantBlocks(q, blocks, at).p.c); }
    }
  }

  lemma {:induction false} ReturnBlocks(q: Pair, p: Plain, blocks: seq<Block>, at: Clock)
    requires UserBlocks(q, blocks, at).finished
    ensures Latched(q.c, UserBlocks(q, blocks, at).p.c)
    ensures Matches(q, p) && Uncapped(UserBlocks(q, blocks, at).p.c.budget) ==> Matches(UserBlocks(q, blocks, at).p, Returns(p, blocks))
    decreases |blocks|
  {
    hide Matches, Latched, Return, Uncapped;
    StaysLatched(q.c);
    if blocks != [] {
      var one := UserBlock(q, blocks[0], at).p;
      ReturnBlock(q, p, blocks[0], at);
      var m := if blocks[0].ToolResult? then Return(p, blocks[0].id, blocks[0].failed) else p;
      ReturnBlocks(one, m, blocks[1..], at);
      LatchedThen(q.c, one.c, UserBlocks(q, blocks, at).p.c);
      if Uncapped(UserBlocks(q, blocks, at).p.c.budget) { LatchedBack(one.c, UserBlocks(q, blocks, at).p.c); }
    }
  }

  // ----- lines

  /** A line that only calls the sequencer moves the decoder not at all. */
  lemma OnlyCore(q: Pair, p: Plain, x: Core, m: Plain)
    requires Matches(q, p) && Agrees(x, m) && m.begun == p.begun && m.usage == p.usage && m.told == p.told
    requires !m.over ==> !p.over && Ids(m.calls) == Ids(p.calls)
    ensures Matches(Pair(q.d, x), m)
  {}

  lemma MatchesOn(q: Pair, p: Plain)
    requires Matches(q, p)
    ensures Agrees(q.c, p) && q.d.started == p.begun && q.d.delta == p.usage && q.d.reported == p.told && q.c.terminal == p.over && q.c.resolved == p.model
    ensures !p.over ==> q.d.open == Ids(p.calls)
  {}

  lemma SayKeeps(p: Plain, body: Payload)
    ensures var m := Say(p, body); m.begun == p.begun && m.usage == p.usage && m.told == p.told && m.over == p.over && m.calls == p.calls && m.model == p.model
  {}

  lemma CloseKeeps(p: Plain, body: Payload, outcome: Outcome)
    ensures var m := Close(p, body, outcome); m.begun == p.begun && m.usage == p.usage && m.told == p.told && m.over
  {}

  lemma ModelKeeps(p: Plain, model: string)
    ensures var m := Model(p, model); m.begun == p.begun && m.usage == p.usage && m.told == p.told && (!m.over ==> !p.over && m.calls == p.calls)
  {
    hide Representable;
  }

  lemma NotifyLine(q: Pair, p: Plain, notice: Notice)
    requires notice != ClockSkew
    ensures Latched(q.c, Notify(q.c, notice, Silent))
    ensures Matches(q, p) && Uncapped(Notify(q.c, notice, Silent).budget) ==> Matches(Pair(q.d, Notify(q.c, notice, Silent)), Say(p, Noticed(notice)))
  {
    hide Notify, Matches, Agrees, Say, Latched;
    NotifySays(q.c, p, notice, Silent);
    SayKeeps(p, Noticed(notice));
    if Matches(q, p) {
      MatchesOn(q, p);
      if Uncapped(Notify(q.c, notice, Silent).budget) { OnlyCore(q, p, Notify(q.c, notice, Silent), Say(p, Noticed(notice))); }
    }
  }

  lemma TextLine(q: Pair, p: Plain, thinking: bool, text: string)
    ensures Latched(q.c, EmitText(q.c, thinking, text, Silent))
    ensures Matches(q, p) && Uncapped(EmitText(q.c, thinking, text, Silent).budget) ==>
      Matches(Pair(q.d, EmitText(q.c, thinking, text, Silent)), if text == "" then p else Say(p, Delta(thinking, text)))
  {
    hide EmitText, Matches, Agrees, Say, Latched;
    TextSays(q.c, p, thinking, text, Silent);
    SayKeeps(p, Delta(thinking, text));
    if Matches(q, p) {
      MatchesOn(q, p);
      if Uncapped(EmitText(q.c, thinking, text, Silent).budget) { OnlyCore(q, p, EmitText(q.c, thinking, text, Silent), if text == "" then p else Say(p, Delta(thinking, text))); }
    }
  }

  lemma ModelLine(q: Pair, p: Plain, model: string, at: Clock)
    ensures Latched(q.c, ResolveModel(q.c, model, at))
    ensures Matches(q, p) ==> Matches(Pair(q.d, ResolveModel(q.c, model, at)), Model(p, model))
  {
    hide ResolveModel, Matches, Agrees, Model, Latched;
    ModelSaysPlain(q.c, p, model, at);
    ModelKeeps(p, model);
    if Matches(q, p) {
      MatchesOn(q, p);
      OnlyCore(q, p, ResolveModel(q.c, model, at), Model(p, model));
    }
  }

  lemma LimitLine(q: Pair, p: Plain, blocks: bool)
    ensures Latched(q.c, DecodeRateLimit(q.c, blocks))
    ensures Matches(q, p) && Uncapped(DecodeRateLimit(q.c, blocks).budget) ==>
      Matches(Pair(q.d, DecodeRateLimit(q.c, blocks)), if blocks then Close(Say(p, Quota), Failed(QuotaExhausted), Error) else Say(p, Quota))
  {
    hide ReportQuota, Fail, Matches, Agrees, Say, Close, Latched;
    var seen, m := ReportQuota(q.c, Silent), Say(p, Quota);
    QuotaSays(q.c, p, Silent);
    FailLatches(seen, QuotaExhausted, Silent);
    LatchedThen(q.c, seen, Fail(seen, QuotaExhausted, Silent));
    SayKeeps(p, Quota);
    CloseKeeps(m, Failed(QuotaExhausted), Error);
    if Matches(q, p) && Uncapped(DecodeRateLimit(q.c, blocks).budget) {
      MatchesOn(q, p);
      if blocks {
        LatchedBack(seen, Fail(seen, QuotaExhausted, Silent));
        FailSaysPlain(seen, m, QuotaExhausted, Silent);
        OnlyCore(q, p, Fail(seen, QuotaExhausted, Silent), Close(m, Failed(QuotaExhausted), Error));
      } else {
        OnlyCore(q, p, seen, m);
      }
    }
  }

  lemma TellLine(q: Pair, p: Plain, at: Clock, report: Option<Report>)
    ensures Latched(q.c, TellUsage(q, at, report).c)
    ensures Matches(q, p) && Uncapped(TellUsage(q, at, report).c.budget) ==>
      Matches(TellUsage(q, at, report), if report.Some? then Usage(p, report.value) else p)
  {
    hide ReportUsage, Latched, Heard, Free, Ids;
    StaysLatched(q.c);
    if report.Some? {
      UsageSays(q.c, p, MapUsage(report.value, q.d.delta), report.value.faulty, at);
    }
  }

  lemma EndingLine(q: Pair, p: Plain, at: Clock, failed: bool, quota: bool)
    ensures Latched(q.c, ClaudeStream.Ending(q.c, at, failed, quota))
    ensures Matches(q, p) && Uncapped(ClaudeStream.Ending(q.c, at, failed, quota).budget) ==>
      Matches(Pair(q.d, ClaudeStream.Ending(q.c, at, failed, quota)),
        if !failed then Close(p, if p.model.Some? then Completed(None) else Failed(ModelUnresolved), Error)
        else if quota then Close(Say(p, Quota), Failed(QuotaExhausted), Error) else Close(p, Failed(BackendFailure), Error))
  {
    hide ReportQuota, Fail, Complete, Matches, Agrees, Say, Close, Latched;
    var seen, m := ReportQuota(q.c, at), Say(p, Quota);
    CompleteSaysPlain(q.c, p, at);
    QuotaSays(q.c, p, at);
    FailLatches(seen, QuotaExhausted, at);
    FailLatches(q.c, BackendFailure, at);
    LatchedThen(q.c, seen, Fail(seen, QuotaExhausted, at));
    SayKeeps(p, Quota);
    CloseKeeps(p, if p.model.Some? then Completed(None) else Failed(ModelUnresolved), Error);
    CloseKeeps(p, Failed(BackendFailure), Error);
    CloseKeeps(m, Failed(QuotaExhausted), Error);
    if Matches(q, p) && Uncapped(ClaudeStream.Ending(q.c, at, failed, quota).budget) {
      MatchesOn(q, p);
      FailSaysPlain(q.c, p, BackendFailure, at);
      if failed && quota {
        LatchedBack(seen, Fail(seen, QuotaExhausted, at));
        FailSaysPlain(seen, m, QuotaExhausted, at);
        OnlyCore(q, p, Fail(seen, QuotaExhausted, at), Close(m, Failed(QuotaExhausted), Error));
      } else if failed {
        OnlyCore(q, p, Fail(q.c, BackendFailure, at), Close(p, Failed(BackendFailure), Error));
      } else {
        OnlyCore(q, p, Complete(q.c, at), Close(p, if p.model.Some? then Completed(None) else Failed(ModelUnresolved), Error));
      }
    }
  }

  lemma ResultLine(q: Pair, p: Plain, line: Line)
    requires line.Result?
    ensures Latched(q.c, DecodeOpened(q, line).p.c)
    ensures Matches(q, p) && Uncapped(DecodeOpened(q, line).p.c.budget) ==> Matches(DecodeOpened(q, line).p, Read(p, line))
  {
    hide TellUsage, ClaudeStream.Ending, Matches, Latched, Usage, Close, Say, Uncapped;
    var told := TellUsage(q, line.at, line.usage);
    var m := if line.usage.Some? then Usage(p, line.usage.value) else p;
    TellLine(q, p, line.at, line.usage);
    EndingLine(told, m, line.at, line.failed, line.quota);
    LatchedThen(q.c, told.c, DecodeOpened(q, line).p.c);
    if Uncapped(DecodeOpened(q, line).p.c.budget) { LatchedBack(told.c, DecodeOpened(q, line).p.c); }
  }

  lemma AssistantLine(q: Pair, p: Plain, line: Line)
    requires line.Assistant? && DecodeOpened(q, line).finished
    ensures Latched(q.c, DecodeOpened(q, line).p.c)
    ensures Matches(q, p) && Uncapped(DecodeOpened(q, line).p.c.budget) ==> Matches(DecodeOpened(q, line).p, Read(p, line))
  {
    hide ResolveModel, AssistantBlocks, Matches, Latched, Model, Calls, Uncapped;
    var named := if line.model == "" then q else Pair(q.d, ResolveModel(q.c, line.model, line.at));
    StaysLatched(q.c);
    ModelLine(q, p, line.model, line.at);
    CallBlocks(named, if line.model == "" then p else Model(p, line.model), line.content.blocks, line.at);
    LatchedThen(q.c, named.c, DecodeOpened(q, line).p.c);
  }

  /** One line moves the run as it moves the plain reading. */
  lemma LineSays(q: Pair, p: Plain, line: Line)
    requires !line.Blank? && DecodeOpened(q, line).finished
    ensures Latched(q.c, DecodeOpened(q, line).p.c)
    ensures Matches(q, p) && Uncapped(DecodeOpened(q, line).p.c.budget) ==> Matches(DecodeOpened(q, line).p, Read(p, line))
  {
    hide Notify, EmitText, ResolveModel, DecodeRateLimit, DecodeAssistant, UserBlocks, DecodeResult, Latched, Say, Close, Model, Calls, Returns, Usage;
    StaysLatched(q.c);
    match line
    case Prose => NotifyLine(q, p, NonJson);
    case SystemOther => NotifyLine(q, p, UnknownEvent);
    case Unrecognized => NotifyLine(q, p, UnknownEvent);
    case SystemInit(model) => ModelLine(q, p, model, Silent);
    case StreamUsage(counts) => UsageAdds(q, p, counts);
    case StreamText(thinking, text) => TextLine(q, p, thinking, text);
    case Assistant(_, _, _) => AssistantLine(q, p, line);
    case User(at, content) => ReturnBlocks(q, p, content.blocks, at);
    case RateLimit(blocks) => LimitLine(q, p, blocks);
    case Result(_, _, _, _) => ResultLine(q, p, line);
    case _ =>
  }

  lemma UsageAdds(q: Pair, p: Plain, counts: Counts)
    ensures Matches(q, p) ==> Matches(Pair(Accumulate(q.d, counts), q.c), p.(usage := Some(Added(p.usage, counts))))
  {
    hide Heard, Free, Ids;
  }

  lemma BeginSays(q: Pair, p: Plain)
    requires Steady(q)
    ensures Latched(q.c, EnsureStarted(q).c)
    ensures Matches(q, p) ==> Matches(EnsureStarted(q), Begin(p))
  {
    hide Start, Agrees, Heard, Free, Latched;
    StaysLatched(q.c);
    if !q.d.started {
      StartSays(q.c, p);
      if Matches(q, p) { NotYet(q, p); }
    }
  }

  lemma NotYet(q: Pair, p: Plain)
    requires Matches(q, p) && !q.d.started && Steady(q)
    ensures Agrees(Start(q.c), Begin(p)) && Begin(p).begun && Begin(p).usage == p.usage && Begin(p).told == p.told && Begin(p).calls == p.calls && Begin(p).over == p.over
  {
    hide Start, Heard, Free;
    StartSays(q.c, p);
  }

  lemma DecodeSays(q: Pair, p: Plain, line: Line)
    requires Ready(q) && Decode(q, line).finished
    ensures Latched(q.c, Decode(q, line).p.c)
    ensures Matches(q, p) && Uncapped(Decode(q, line).p.c.budget) ==> Matches(Decode(q, line).p, ReadLine(p, line))
  {
    hide DecodeOpened, EnsureStarted, Matches, Latched, Read, Begin, Uncapped, Steady;
    StaysLatched(q.c);
    if !line.Blank? {
      ReadySteady(q);
      BeginSays(q, p);
      LineSays(EnsureStarted(q), Begin(p), line);
      LatchedThen(q.c, EnsureStarted(q).c, Decode(q, line).p.c);
    }
  }

  lemma {:induction false} LinesSay(q: Pair, p: Plain, lines: seq<Line>)
    requires Ready(q) && forall i :: 0 <= i < |lines| ==> !Throws(lines[i])
    ensures Latched(q.c, After(q, lines).c) && Ready(After(q, lines))
    ensures Matches(q, p) && Uncapped(After(q, lines).c.budget) ==> Matches(After(q, lines), ReadLines(p, lines))
    decreases |lines|
  {
    hide Decode, Matches, Latched, ReadLine, Ready, Throws, Uncapped;
    StaysLatched(q.c);
    if lines != [] {
      var one := Decode(q, lines[0]).p;
      ThrowsIff(q, lines[0]);
      DecodeKeeps(q, lines[0]);
      DecodeSays(q, p, lines[0]);
      LinesSay(one, ReadLine(p, lines[0]), lines[1..]);
      LatchedThen(q.c, one.c, After(q, lines).c);
      if Uncapped(After(q, lines).c.budget) { LatchedBack(one.c, After(q, lines).c); }
    }
  }

  // ----- the whole run

  lemma HostSaysPlain(q: Pair, p: Plain, stop: Stop)
    requires Steady(q)
    ensures Latched(q.c, HostEnding(q, false, stop))
    ensures Matches(q, p) && Uncapped(HostEnding(q, false, stop).budget) ==> Heard(HostEnding(q, false, stop).log) == Host(p, stop).said
  {
    hide EnsureStarted, ReportUsage, Fail, Cancel, Matches, Latched, Begin, Say, Close, Agrees, Steady;
    var o, b := EnsureStarted(q), Begin(p);
    var f := FlushUsage(o);
    BeginSays(q, p);
    StaysLatched(o.c);
    FlushSays(o, b);
    var code := if stop.broke then BackendFailure else TerminalMissing;
    FailLatches(f.c, code, Silent);
    LatchedThen(q.c, o.c, f.c);
    LatchedThen(q.c, f.c, HostEnding(q, false, stop));
    if Matches(q, p) && Uncapped(HostEnding(q, false, stop).budget) {
      LatchedBack(f.c, HostEnding(q, false, stop));
      var r := if b.told || b.usage.None? then b else Say(b, Payload.Usage(b.usage.value));
      FailSaysPlain(f.c, r, code, Silent);
      CancelSaysPlain(f.c, r);
      HeardIs(Fail(f.c, code, Silent), Close(r, Failed(code), Error));
      HeardIs(Cancel(f.c), Close(r, Cancelled, Dropped));
    }
  }

  lemma HeardIs(c: Core, p: Plain)
    ensures Agrees(c, p) ==> Heard(c.log) == p.said
  {}

  lemma FlushSays(o: Pair, b: Plain)
    ensures Latched(o.c, FlushUsage(o).c)
    ensures Matches(o, b) && Uncapped(FlushUsage(o).c.budget) ==>
      Agrees(FlushUsage(o).c, if b.told || b.usage.None? then b else Say(b, Payload.Usage(b.usage.value)))
  {
    hide ReportUsage, Latched, Heard, Free, Ids, Say;
    StaysLatched(o.c);
    if !o.d.reported && o.d.delta.Some? { UsageSays(o.c, b, o.d.delta.value, false, Silent); }
  }

  lemma NothingSaid(maxBytes: nat, maxEvents: nat)
    ensures Matches(NewRun(maxBytes, maxEvents), NOTHING)
  {
    assert Ids([]) == {};
  }

  ghost function Measure(said: seq<Payload>, exit: Option<int>): seq<Payload> {
    if said == [] then [] else said[..|said| - 1] + [WithExit(said[|said| - 1], exit)]
  }

  lemma {:induction false} MeasuredHeard(log: seq<Event>, exit: Option<int>)
    requires log != [] && IsTerminal(log[|log| - 1].body)
    ensures Heard(Delivered(log, exit)) == Measure(Heard(log), exit)
  {
    var init, last := log[..|log| - 1], log[|log| - 1];
    assert log == init + [last];
    HeardOne(init, last);
    HeardOne(init, Measured(last, exit));
    assert (Heard(init) + [last.body])[..|Heard(init)|] == Heard(init);
  }

  /**
   Where nothing was refused for the event cap and no text cut for the byte limit, a consumer hears exactly what the lines
   say, in order: the plain reading, with the measured exit code in a completed terminal. Only the clock notice, which
   depends on the providers' clocks, is left out of the comparison.
  */
  lemma RunSaysPlain(maxBytes: nat, maxEvents: nat, lines: seq<Line>, stop: Stop, exit: Option<int>)
    requires forall i :: 0 <= i < |lines| ==> !Throws(lines[i])
    requires Uncapped(ClaudePromise.Final(NewRun(maxBytes, maxEvents), lines, stop).budget)
    ensures Heard(Parse(NewRun(maxBytes, maxEvents), lines, stop, exit)) ==
      if ReadLines(NOTHING, lines).over then Measure(Told(lines, stop), exit) else Told(lines, stop)
  {
    hide Ready, NewRun, After, ReadAll, Matches, Latched, ReadLines, HostEnding, Host, Throws, Good, Uncapped, Delivered, Measure;
    var start, n := NewRun(maxBytes, maxEvents), |lines|;
    assert lines[..n] == lines;
    ReadStops(maxBytes, maxEvents, lines, n);
    NewRunIsReady(maxBytes, maxEvents);
    NothingSaid(maxBytes, maxEvents);
    LinesSay(start, NOTHING, lines);
    var q, p := After(start, lines), ReadLines(NOTHING, lines);
    ReadySteady(q);
    ReadyGoodLog(q);
    AliveSettles(q.c);
    HostSaysPlain(q, p, stop);
    if q.c.terminal {
      MatchesOn(q, p);
      HeardIs(q.c, p);
      EndsInTerminal(q.c);
      MeasuredHeard(q.c.log, exit);
    } else {
      LatchedBack(q.c, HostEnding(q, false, stop));
      MatchesOn(q, p);
      HostEnds(q, false, stop);
      SinceIs(q.c, HostEnding(q, false, stop));
    }
  }

  lemma EndsInTerminal(c: Core)
    requires Good(c) && c.terminal
    ensures c.log != [] && IsTerminal(c.log[|c.log| - 1].body)
  {}
}
