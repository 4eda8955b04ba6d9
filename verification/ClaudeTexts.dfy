/** The text a run delivers: the longest prefix of what its lines say that fits the byte limit. */
module ClaudeTexts {
  import opened Text
  import opened Utf8
  import opened Budgets
  import opened Sequencing
  import opened SequencingKept
  import opened ClaudeStream
  import opened ClaudeRun
  import opened ClaudePromise
  import opened ClaudeCourse
  import opened ClaudeEnding

  /** All text of a run's deltas, in order. */
  function Spoken(log: seq<Event>): string {
    if log == [] then "" else Spoken(log[..|log| - 1]) + (if log[|log| - 1].body.Delta? then log[|log| - 1].body.text else "")
  }

  lemma SpokenOne(log: seq<Event>, e: Event)
    ensures Spoken(log + [e]) == Spoken(log) + if e.body.Delta? then e.body.text else ""
  {
    assert (log + [e])[..|log|] == log;
  }

  lemma {:induction false} SpokenMore(a: seq<Event>, b: seq<Event>)
    ensures Spoken(a + b) == Spoken(a) + Spoken(b)
  {
    if b == [] {
      assert a + b == a && Spoken(a) + "" == Spoken(a);
    } else {
      var init, last := b[..|b| - 1], b[|b| - 1];
      SpokenMore(a, init);
      assert b == init + [last] && a + b == (a + init) + [last];
      SpokenOne(init, last);
      SpokenOne(a + init, last);
    }
  }

  /** All text of the lines before one ends the run. */
  function Asked(lines: seq<Line>): string {
    if lines == [] then ""
    else
      var init, last := lines[..|lines| - 1], lines[|lines| - 1];
      Asked(init) + (if last.StreamText? && CourseOf(init).Open? then last.text else "")
  }

  // ----- lengths and prefixes

  lemma {:induction false} EncodeMore(a: string, b: string)
    ensures Encode(a + b) == Encode(a) + Encode(b) && Length(a + b) == Length(a) + Length(b)
    decreases |b|
  {
    hide EncodeChar;
    if b == "" {
      assert a + b == a && Encode("") == [];
    } else {
      var init := b[..|b| - 1];
      EncodeMore(a, init);
      assert (a + b)[..|a + b| - 1] == a + init && (a + b)[|a + b| - 1] == b[|b| - 1];
    }
  }

  lemma FittingAll(s: string, limit: nat)
    requires Length(s) <= limit
    ensures Fitting(s, limit) == s
  {}

  /** What fits of a text that starts with something that fits: that, and what fits of the rest. */
  lemma {:induction false} FittingMore(a: string, b: string, limit: nat)
    requires Length(a) <= limit
    ensures Fitting(a + b, limit) == a + Fitting(b, limit - Length(a))
    decreases |b|
  {
    hide Length;
    if b == "" {
      assert a + b == a && a + "" == a;
      NoLength();
      FittingAll(a, limit);
    } else {
      EncodeMore(a, b);
      var init := b[..|b| - 1];
      assert (a + b)[..|a + b| - 1] == a + init;
      if Length(a + b) > limit { FittingMore(a, init, limit); }
    }
  }

  lemma NoLength()
    ensures Length("") == 0 && forall limit: nat :: Fitting("", limit) == ""
  {
    assert Encode("") == [];
  }

  lemma {:induction false} FittingStops(a: string, b: string, limit: nat)
    requires Length(a) > limit
    ensures Fitting(a + b, limit) == Fitting(a, limit)
    decreases |b|
  {
    hide Length;
    EncodeMore(a, b);
    if b == "" {
      assert a + b == a;
    } else {
      var init := b[..|b| - 1];
      assert (a + b)[..|a + b| - 1] == a + init;
      FittingStops(a, init, limit);
    }
  }

  // ----- what a sequence has spoken

  /** The text so far is the start of what was asked, and all of it that fits unless an event was refused. */
  ghost predicate Speaks(c: Core, asked: string) {
    && Spoken(c.log) <= asked && Length(Spoken(c.log)) == c.budget.textBytes <= c.budget.maxBytes
    && (!c.budget.capped ==> Spoken(c.log) == Fitting(asked, c.budget.maxBytes) && (c.budget.truncated <==> Length(asked) > c.budget.maxBytes))
  }

  /** Nothing about the text has changed. */
  ghost predicate Mute(c: Core, x: Core) {
    && Spoken(x.log) == Spoken(c.log) && x.budget.textBytes == c.budget.textBytes && x.budget.maxBytes == c.budget.maxBytes
    && x.budget.truncated == c.budget.truncated && (c.budget.capped ==> x.budget.capped)
  }

  lemma MuteSpeaks(c: Core, x: Core, asked: string)
    requires Mute(c, x) && Speaks(c, asked)
    ensures Speaks(x, asked)
  {}

  lemma MuteThen(c: Core, x: Core, y: Core)
    requires Mute(c, x) && Mute(x, y)
    ensures Mute(c, y)
  {}

  lemma StampMute(c: Core, body: Payload)
    requires !body.Delta?
    ensures Spoken(Stamp(c, body).log) == Spoken(c.log)
  {
    SpokenOne(c.log, Event(c.seqNo + 1, body));
    assert Spoken(c.log) + "" == Spoken(c.log);
  }

  lemma ClockMute(c: Core, at: Clock)
    ensures Mute(c, ClockAdvisory(c, at))
  {
    hide Spoken;
    var next := Clocked(c, at);
    StampMute(next.(skewNoticed := true, budget := next.budget.Spent()), Noticed(ClockSkew));
  }

  lemma DrainMute(c: Core)
    ensures Mute(c, DrainNotice(c))
  {
    hide Spoken;
    StampMute(c.(budget := c.budget.Claimed()), Noticed(OutputTruncated));
  }

  lemma NoticesMute(c: Core, at: Clock)
    ensures Mute(c, ClockAdvisory(c, at)) && Mute(c, DrainNotice(c))
  {
    hide *;
    ClockMute(c, at);
    DrainMute(c);
  }

  lemma OfferMute(c: Core, body: Payload)
    requires !body.Delta?
    ensures Mute(c, OfferEvent(c, body))
  {
    SpokenOne(c.log, Event(c.seqNo + 1, body));
    assert Spoken(c.log) + "" == Spoken(c.log);
  }

  lemma OptionalMute(c: Core, body: Payload, at: Clock)
    requires !body.Delta?
    ensures Mute(c, Optional(c, body, at))
  {
    hide ClockAdvisory, OfferEvent, DrainNotice, Spoken;
    NoticesMute(c, at);
    OfferMute(ClockAdvisory(c, at), body);
    NoticesMute(OfferEvent(ClockAdvisory(c, at), body), at);
  }

  lemma NotesMute(c: Core, notice: Notice, at: Clock)
    ensures Mute(c, Notify(c, notice, at)) && Mute(c, ReportQuota(c, at))
  {
    hide Optional, Spoken;
    OptionalMute(c, Noticed(notice), at);
    OptionalMute(c, Quota, at);
  }

  lemma UsageMute(c: Core, counts: Counts, faulty: bool, at: Clock)
    ensures Mute(c, ReportUsage(c, counts, faulty, at))
  {
    hide Optional, Notify, Spoken;
    NotesMute(c, MalformedUsage, at);
    OptionalMute(if faulty then Notify(c, MalformedUsage, at) else c, Payload.Usage(counts), at);
  }

  lemma StartMute(c: Core)
    ensures Mute(c, Start(c))
  {
    hide Notify, Spoken;
    NotesMute(c, UnknownEvent, Silent);
    StampMute(c.(started := true, budget := c.budget.Spent()), Started);
  }

  lemma SettleMute(c: Core, call: nat, outcome: Outcome)
    ensures Mute(c, Settle(c, call, outcome)) && Settle(c, call, outcome).open == c.open
  {
    hide Spoken;
    StampMute(c.(budget := c.budget.Discharged().Spent()), Settled(call, outcome));
  }

  lemma {:induction false} SettlingMute(c: Core, outcome: Outcome)
    ensures Mute(c, SettleAll(c, outcome))
    decreases |c.open|
  {
    hide Settle, Spoken;
    if c.open != [] {
      SettleMute(c.(open := c.open[1..]), c.open[0].1, outcome);
      SettlingMute(Settle(c.(open := c.open[1..]), c.open[0].1, outcome), outcome);
    }
  }

  lemma TerminateMute(c: Core, body: Payload)
    requires !body.Delta?
    ensures Mute(c, Terminate(c, body))
  {
    hide Spoken;
    StampMute(c.(terminal := true, budget := c.budget.Spent()), body);
  }

  lemma EndsMute(c: Core, code: ErrorCode, at: Clock)
    ensures Mute(c, Fail(c, code, at)) && Mute(c, Cancel(c)) && Mute(c, Complete(c, at))
  {
    hide SettleAll, ClockAdvisory, Terminate, Spoken, ResolveTo;
    NoticesMute(c, at);
    SettlingMute(ClockAdvisory(c, at), Error);
    SettlingMute(c, Dropped);
    var settled := SettleAll(ClockAdvisory(c, at), Error);
    TerminateMute(settled, Failed(code));
    TerminateMute(SettleAll(c, Dropped), Cancelled);
    if settled.attributed.Some? { ResolveMute(settled, settled.attributed.value); }
    TerminateMute(Attributed(settled), Failed(ModelUnresolved));
    TerminateMute(Attributed(settled), Completed(None));
  }

  lemma ResolveMute(c: Core, model: string)
    ensures Mute(c, ResolveTo(c, model))
  {
    hide Spoken;
    StampMute(c.(resolved := Some(model), budget := c.budget.Spent()), Resolved(model));
  }

  lemma ModelMute(c: Core, model: string, at: Clock)
    ensures Mute(c, ResolveModel(c, model, at))
  {
    hide Fail, ResolveTo, Spoken, Representable;
    EndsMute(c, ModelUnresolved, at);
    EndsMute(c, ModelMismatch, at);
    ResolveMute(c, model);
  }

  lemma CallMute(c: Core, id: string, outcome: Outcome, at: Clock)
    ensures Mute(c, ToolRequested(c, id, at)) && Mute(c, ToolCompleted(c, id, outcome, at))
  {
    hide ClockAdvisory, DrainNotice, Notify, Settle, Spoken, IsOpen, NumberFor, Without, OpenCall;
    NoticesMute(c, at);
    OpenMute(ClockAdvisory(c, at), id);
    NoticesMute(OpenCall(ClockAdvisory(c, at), id), at);
    NotesMute(c, UnknownEvent, at);
    if IsOpen(c.open, id) { SettleMute(c.(open := Without(c.open, id)), NumberFor(c.open, id), outcome); }
  }

  lemma OpenMute(c: Core, id: string)
    ensures Mute(c, OpenCall(c, id))
  {
    SpokenOne(c.log, Event(c.seqNo + 1, Requested(c.toolCount + 1)));
    assert Spoken(c.log) + "" == Spoken(c.log);
  }

  // ----- one delta

  lemma Shorter(a: string, b: string)
    ensures a <= b ==> forall more :: a <= b + more
  {}

  lemma FitOf(c: Core, value: string)
    ensures Length(c.budget.FitText(value)) <= (if c.budget.maxBytes <= c.budget.textBytes then 0 else c.budget.maxBytes - c.budget.textBytes)
    ensures c.budget.FitText(value) <= value
  {
    NoLength();
    FitsOf(value, if c.budget.maxBytes <= c.budget.textBytes then 0 else c.budget.maxBytes - c.budget.textBytes);
  }

  /** Where no event was refused, the fit is exact. */
  lemma FitIs(c: Core, asked: string, value: string)
    requires Speaks(c, asked) && value != "" && !c.budget.capped
    ensures Spoken(c.log) + c.budget.FitText(value) == Fitting(asked + value, c.budget.maxBytes)
    ensures c.budget.Fitted(value).truncated <==> Length(asked + value) > c.budget.maxBytes
  {
    hide Length, Fitting, Spoken, Budget.FitText, Budget.Cuts, Budget.Fitted;
    FitTells(c.budget, value);
    FitGrows(asked, value, c.budget.maxBytes);
    assert Spoken(c.log) + "" == Spoken(c.log);
  }

  /** A text that fits no longer fits with more behind it either; one that fits leaves the rest of the room for what is behind it. */
  lemma FitGrows(asked: string, value: string, limit: nat)
    ensures Length(asked) > limit ==> Fitting(asked + value, limit) == Fitting(asked, limit) && Length(asked + value) > limit
    ensures Length(asked) <= limit ==> Fitting(asked, limit) == asked && Fitting(asked + value, limit) == asked + Fitting(value, limit - Length(asked))
    ensures Length(asked + value) == Length(asked) + Length(value)
  {
    hide Length, Fitting;
    EncodeMore(asked, value);
    FitsOf(asked, limit);
    if Length(asked) > limit { FittingStops(asked, value, limit); } else { FittingMore(asked, value, limit); }
  }

  lemma FitTells(b: Budget, value: string)
    requires value != "" && b.textBytes <= b.maxBytes
    ensures b.truncated ==> b.FitText(value) == "" && b.Fitted(value).truncated
    ensures !b.truncated ==> b.FitText(value) == Fitting(value, b.maxBytes - b.textBytes)
    ensures !b.truncated ==> (b.Fitted(value).truncated <==> Length(value) > b.maxBytes - b.textBytes)
  {
    hide Length, Fitting;
    SomeLength(value);
    if b.maxBytes <= b.textBytes { NothingFits(value); }
  }

  /** A text that arrives on an open run: as much of it as fits, unless it is refused. */
  lemma DeltaSpeaks(c: Core, asked: string, thinking: bool, value: string)
    requires Speaks(c, asked) && value != ""
    ensures Speaks(FitAndOffer(c, thinking, value), asked + value)
  {
    hide Length, Fitting, Spoken, Speaks;
    var fit := c.budget.FitText(value);
    SpokenOne(c.log, Event(c.seqNo + 1, Delta(thinking, fit)));
    FitOf(c, value);
    SpeaksOn(c, asked);
    EncodeMore(Spoken(c.log), fit);
    Shorter(Spoken(c.log), asked);
    if !c.budget.capped {
      FitIs(c, asked, value);
      FitsOf(asked + value, c.budget.maxBytes);
    }
    Offered(c, asked + value, thinking, value);
  }

  lemma SpeaksOn(c: Core, asked: string)
    requires Speaks(c, asked)
    ensures Spoken(c.log) <= asked && Length(Spoken(c.log)) == c.budget.textBytes <= c.budget.maxBytes
  {}

  lemma Offered(c: Core, all: string, thinking: bool, value: string)
    requires Spoken(c.log) <= all && Length(Spoken(c.log)) == c.budget.textBytes <= c.budget.maxBytes
    requires var fit := c.budget.FitText(value);
      && Spoken(c.log + [Event(c.seqNo + 1, Delta(thinking, fit))]) == Spoken(c.log) + fit
      && Length(Spoken(c.log) + fit) == Length(Spoken(c.log)) + Length(fit)
      && Length(fit) <= (if c.budget.maxBytes <= c.budget.textBytes then 0 else c.budget.maxBytes - c.budget.textBytes)
      && (!c.budget.capped ==> Spoken(c.log) + fit <= all)
      && (!c.budget.capped ==> Spoken(c.log) + fit == Fitting(all, c.budget.maxBytes) && (c.budget.Fitted(value).truncated <==> Length(all) > c.budget.maxBytes))
    ensures Speaks(FitAndOffer(c, thinking, value), all)
  {
    hide Length, Fitting, Spoken;
    assert Spoken(c.log) + "" == Spoken(c.log);
  }

  lemma FitsOf(value: string, limit: nat)
    ensures Length(Fitting(value, limit)) <= limit && Fitting(value, limit) <= value
    ensures Length(value) <= limit ==> Fitting(value, limit) == value
  {}

  lemma {:induction false} NothingFits(value: string)
    ensures Fitting(value, 0) == ""
  {
    if Length(value) > 0 { NothingFits(value[..|value| - 1]); } else { SomeLength(value); }
  }

  lemma SomeLength(value: string)
    ensures value != "" ==> Length(value) > 0
  {}

  lemma TextSpeaks(c: Core, asked: string, thinking: bool, value: string, at: Clock)
    requires Speaks(c, asked)
    ensures Speaks(EmitText(c, thinking, value, at), if c.terminal then asked else asked + value)
  {
    hide ClockAdvisory, DrainNotice, FitAndOffer, Speaks, Mute;
    NoticesMute(c, at);
    MuteSpeaks(c, ClockAdvisory(c, at), asked);
    if value == "" {
      assert asked + value == asked;
    } else {
      DeltaSpeaks(ClockAdvisory(c, at), asked, thinking, value);
      var b := FitAndOffer(ClockAdvisory(c, at), thinking, value);
      NoticesMute(b, at);
      MuteSpeaks(b, DrainNotice(b), asked + value);
    }
  }

  // ----- a line

  lemma MuteSelf(c: Core)
    ensures Mute(c, c)
  {}

  lemma {:induction false} BlocksMute(p: Pair, blocks: seq<Block>, at: Clock)
    ensures Mute(p.c, AssistantBlocks(p, blocks, at).p.c) && Mute(p.c, UserBlocks(p, blocks, at).p.c)
    decreases |blocks|
  {
    hide ToolRequested, ToolCompleted, Mute;
    MuteSelf(p.c);
    if blocks != [] {
      var a, u := AssistantBlock(p, blocks[0], at).p, UserBlock(p, blocks[0], at).p;
      match blocks[0] {
        case ToolUse(id) => CallMute(p.c, id, Fine, at);
        case ToolResult(id, failed) => CallMute(p.c, id, if failed then Error else Fine, at);
        case _ =>
      }
      BlocksMute(a, blocks[1..], at);
      BlocksMute(u, blocks[1..], at);
      MuteThen(p.c, a.c, AssistantBlocks(a, blocks[1..], at).p.c);
      MuteThen(p.c, u.c, UserBlocks(u, blocks[1..], at).p.c);
    }
  }

  lemma OpensMute(p: Pair)
    ensures Mute(p.c, EnsureStarted(p).c)
  {
    hide Start, Mute;
    MuteSelf(p.c);
    StartMute(p.c);
  }

  /** Every line but a text delta leaves the text as it is. */
  lemma LineMute(p: Pair, line: Line)
    requires !line.StreamText?
    ensures Mute(p.c, DecodeOpened(p, line).p.c)
  {
    hide Notify, ResolveModel, AssistantBlocks, UserBlocks, ReportQuota, ReportUsage, Fail, Complete, Mute;
    MuteSelf(p.c);
    match line
    case Prose => NotesMute(p.c, NonJson, Silent);
    case SystemInit(model) => ModelMute(p.c, model, Silent);
    case Assistant(model, at, content) =>
      var named := if model == "" then p else Pair(p.d, ResolveModel(p.c, model, at));
      ModelMute(p.c, model, at);
      if content.Blocks? {
        BlocksMute(named, content.blocks, at);
        MuteThen(p.c, named.c, AssistantBlocks(named, content.blocks, at).p.c);
      }
    case User(at, content) => if content.Blocks? { BlocksMute(p, content.blocks, at); }
    case RateLimit(blocks) =>
      NotesMute(p.c, UnknownEvent, Silent);
      EndsMute(ReportQuota(p.c, Silent), QuotaExhausted, Silent);
      MuteThen(p.c, ReportQuota(p.c, Silent), Fail(ReportQuota(p.c, Silent), QuotaExhausted, Silent));
    case Result(at, usage, failed, quota) => ResultMute(p, at, usage, failed, quota);
    case ResultNameless(at, usage) => if usage.Some? { UsageMute(p.c, MapUsage(usage.value, p.d.delta), usage.value.faulty, at); }
    case _ => NotesMute(p.c, UnknownEvent, Silent);
  }

  lemma ResultMute(p: Pair, at: Clock, usage: Option<Report>, failed: bool, quota: bool)
    ensures Mute(p.c, DecodeResult(p, at, usage, failed, quota).c)
  {
    hide ReportQuota, ReportUsage, Fail, Complete, Mute;
    MuteSelf(p.c);
    var told := TellUsage(p, at, usage).c;
    if usage.Some? { UsageMute(p.c, MapUsage(usage.value, p.d.delta), usage.value.faulty, at); }
    NotesMute(told, UnknownEvent, at);
    EndsMute(told, BackendFailure, at);
    EndsMute(ReportQuota(told, at), QuotaExhausted, at);
    MuteThen(told, ReportQuota(told, at), Fail(ReportQuota(told, at), QuotaExhausted, at));
    MuteThen(p.c, told, DecodeResult(p, at, usage, failed, quota).c);
  }

  /** One line: what it asks is added to what was asked, where the run is still open. */
  lemma DecodeSpeaks(p: Pair, line: Line, asked: string)
    requires Speaks(p.c, asked)
    ensures Speaks(Decode(p, line).p.c, if line.StreamText? && !p.c.terminal then asked + line.text else asked)
  {
    hide EnsureStarted, DecodeOpened, Speaks, Mute;
    if !line.Blank? {
      var q := EnsureStarted(p);
      OpensMute(p);
      OpensUndecided(p);
      MuteSpeaks(p.c, q.c, asked);
      if line.StreamText? {
        TextSpeaks(q.c, asked, line.thinking, line.text, Silent);
        TextDecoded(q, line);
      } else {
        LineMute(q, line);
        MuteSpeaks(q.c, DecodeOpened(q, line).p.c, asked);
      }
    }
  }

  lemma TextDecoded(q: Pair, line: Line)
    requires line.StreamText?
    ensures DecodeOpened(q, line).p.c == EmitText(q.c, line.thinking, line.text, Silent)
  {}

  lemma {:induction false} AfterSpeaks(maxBytes: nat, maxEvents: nat, lines: seq<Line>)
    ensures Speaks(After(NewRun(maxBytes, maxEvents), lines).c, Asked(lines))
  {
    hide Decode, Speaks, InCourse, CourseOf;
    if lines == [] {
      SilentStart(maxBytes, maxEvents);
    } else {
      var init, last := lines[..|lines| - 1], lines[|lines| - 1];
      var q := After(NewRun(maxBytes, maxEvents), init);
      assert lines == init + [last];
      AfterSpeaks(maxBytes, maxEvents, init);
      AfterOne(NewRun(maxBytes, maxEvents), init, last);
      assert lines[..|init|] == init;
      CourseThere(maxBytes, maxEvents, lines, |init|);
      CourseSays(q.c, CourseOf(init));
      DecodeSpeaks(q, last, Asked(init));
      assert Asked(init) + "" == Asked(init);
    }
  }

  lemma SilentStart(maxBytes: nat, maxEvents: nat)
    ensures Speaks(After(NewRun(maxBytes, maxEvents), []).c, Asked([]))
  {
    NoLength();
  }

  // ----- the whole run

  lemma FlushMute(p: Pair)
    ensures Mute(p.c, FlushUsage(p).c)
  {
    hide ReportUsage, Mute;
    MuteSelf(p.c);
    if p.d.delta.Some? { UsageMute(p.c, p.d.delta.value, false, Silent); }
  }

  lemma HostMute(p: Pair, threw: bool, stop: Stop)
    ensures Mute(p.c, HostEnding(p, threw, stop))
  {
    hide EnsureStarted, FlushUsage, Fail, Cancel, Mute;
    var o := EnsureStarted(p);
    var q := FlushUsage(o).c;
    OpensMute(p);
    FlushMute(o);
    EndsMute(q, if threw || stop.broke then BackendFailure else TerminalMissing, Silent);
    MuteThen(p.c, o.c, q);
    MuteThen(p.c, q, HostEnding(p, threw, stop));
  }

  /** What a line that throws has stamped holds no text. */
  lemma FaultMute(p: Pair, line: Line)
    requires Throws(line)
    ensures Mute(p.c, Decode(p, line).p.c)
  {
    hide EnsureStarted, DecodeOpened, Mute;
    OpensMute(p);
    LineMute(EnsureStarted(p), line);
    MuteThen(p.c, EnsureStarted(p).c, Decode(p, line).p.c);
  }

  lemma MeasuredSpoken(log: seq<Event>, exit: Option<int>)
    ensures Spoken(Delivered(log, exit)) == Spoken(log)
  {
    if log != [] {
      var init, last := log[..|log| - 1], log[|log| - 1];
      assert log == init + [last];
      SpokenOne(init, last);
      SpokenOne(init, Measured(last, exit));
    }
  }

  /**
   Whatever the lines, the stream's end and the limits: the text a consumer gets is the start of what the lines say before
   the run ends, and where no event was refused for the event cap it is the longest such start that fits the byte limit.
  */
  lemma TextIs(maxBytes: nat, maxEvents: nat, lines: seq<Line>, stop: Stop, exit: Option<int>, k: nat)
    requires StopsAt(lines, k)
    ensures var text, asked := Spoken(Parse(NewRun(maxBytes, maxEvents), lines, stop, exit)), Asked(lines[..k]);
      && text <= asked && Length(text) <= maxBytes
      && (!After(NewRun(maxBytes, maxEvents), lines[..k]).c.budget.capped ==> text == Fitting(asked, maxBytes))
  {
    hide NewRun, After, ReadAll, Decode, HostEnding, Ready, Steady, Throws, Settles, Good, Spoken;
    var start := NewRun(maxBytes, maxEvents);
    var q := After(start, lines[..k]);
    ReadStops(maxBytes, maxEvents, lines, k);
    AfterSpeaks(maxBytes, maxEvents, lines[..k]);
    LimitThere(maxBytes, maxEvents, lines, k);
    var r := ReadAll(start, lines, []);
    if Settles(r.kept) {
      MeasuredSpoken(q.c.log, exit);
    } else {
      if k < |lines| {
        FaultMute(q, lines[k]);
        ThrowsIff(q, lines[k]);
        DecodeKeeps(q, lines[k]);
      } else {
        MuteSelf(q.c);
        ReadySteady(q);
      }
      HostMute(r.p, r.threw, stop);
      HostEnds(r.p, r.threw, stop);
      var x := HostEnding(r.p, r.threw, stop);
      SinceIs(r.p.c, x);
      SpokenMore(r.p.c.log, Since(r.p.c, x));
      SpokenMore(r.kept, Since(r.p.c, x));
      SaysNothing(Spoken(r.p.c.log), Spoken(Since(r.p.c, x)));
    }
  }

  lemma SaysNothing(a: string, b: string)
    ensures a == a + b ==> b == ""
  {}

  lemma LimitThere(maxBytes: nat, maxEvents: nat, lines: seq<Line>, k: nat)
    requires Sound(lines, k)
    ensures After(NewRun(maxBytes, maxEvents), lines[..k]).c.budget.maxBytes == maxBytes
  {
    hide Ready, Decode, Throws, Good;
    NewRunIsReady(maxBytes, maxEvents);
    NewLimits(maxBytes, maxEvents);
    LimitsAfter(NewRun(maxBytes, maxEvents), lines[..k]);
  }

  lemma {:induction false} LimitsAfter(p: Pair, lines: seq<Line>)
    requires Ready(p) && forall i :: 0 <= i < |lines| ==> !Throws(lines[i])
    ensures SameLimits(p.c, After(p, lines).c)
    decreases |lines|
  {
    hide Ready, Decode, Throws;
    if lines != [] {
      ThrowsIff(p, lines[0]);
      DecodeKeeps(p, lines[0]);
      LimitsAfter(Decode(p, lines[0]).p, lines[1..]);
    }
  }
}
