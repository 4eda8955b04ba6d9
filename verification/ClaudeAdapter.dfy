/** The decoder object and parse itself: what a consumer sees is what the specification of a run says. */
module ClaudeAdapter {
  import opened Text
  import opened Budgets
  import opened Sequencing
  import opened SequencingKept
  import opened ClaudeStream
  import opened ClaudeRun
  import opened EventSequencers

  class ClaudeStreamDecoder {
    var started: bool
    var open: set<string>
    var delta: Option<Counts>
    var reported: bool

    function State(): Decoder
      reads this
    {
      Decoder(started, open, delta, reported)
    }

    constructor ()
      ensures State() == Decoder(false, {}, None, false)
    {
      started, open, delta, reported := false, {}, None, false;
    }

    ghost function With(s: EventSequencer): Pair
      reads this, s, s.budget
    {
      Pair(State(), s.State())
    }

    method Ensure(s: EventSequencer) returns (out: seq<Event>)
      modifies this, s, s.budget
      ensures With(s) == EnsureStarted(old(With(s))) && s.log == old(s.log) + out
    {
      if started { return []; }
      started := true;
      out := s.Begin();
    }

    method Flush(s: EventSequencer) returns (out: seq<Event>)
      modifies this, s, s.budget
      ensures With(s) == FlushUsage(old(With(s))) && s.log == old(s.log) + out
    {
      if reported || delta.None? { return []; }
      reported := true;
      out := s.Usage(delta.value, false, Silent);
    }

    method ReadAssistantBlock(s: EventSequencer, block: Block, at: Clock) returns (out: seq<Event>, finished: bool)
      modifies this, s, s.budget
      ensures Step(With(s), finished) == AssistantBlock(old(With(s)), block, at) && s.log == old(s.log) + out
    {
      hide ToolRequested;
      out, finished := [], true;
      match block
      case NullBlock => finished := false;
      case ToolUse(id) =>
        if |id| > 0 && id !in open {
          open := open + {id};
          out := s.RequestTool(id, at);
        }
      case _ =>
    }

    method ReadUserBlock(s: EventSequencer, block: Block, at: Clock) returns (out: seq<Event>, finished: bool)
      modifies this, s, s.budget
      ensures Step(With(s), finished) == UserBlock(old(With(s)), block, at) && s.log == old(s.log) + out
    {
      hide ToolCompleted;
      out, finished := [], true;
      match block
      case NullBlock => finished := false;
      case ToolResult(id, failed) =>
        if |id| > 0 {
          open := open - {id};
          out := s.CompleteTool(id, if failed then Error else Fine, at);
        }
      case _ =>
    }

    method ReadAssistantBlocks(s: EventSequencer, at: Clock, blocks: seq<Block>) returns (out: seq<Event>, finished: bool)
      modifies this, s, s.budget
      ensures Step(With(s), finished) == AssistantBlocks(old(With(s)), blocks, at) && s.log == old(s.log) + out
    {
      hide AssistantBlock;
      out := [];
      ghost var first := With(s);
      for i := 0 to |blocks|
        invariant AssistantBlocks(With(s), blocks[i..], at) == AssistantBlocks(first, blocks, at) && s.log == old(s.log) + out
      {
        var events, read := ReadAssistantBlock(s, blocks[i], at);
        out := out + events;
        if !read { return out, false; }
      }
      finished := true;
    }

    method ReadAssistant(s: EventSequencer, model: string, at: Clock, content: Content) returns (out: seq<Event>, finished: bool)
      modifies this, s, s.budget
      ensures Step(With(s), finished) == DecodeAssistant(old(With(s)), model, at, content) && s.log == old(s.log) + out
    {
      hide ResolveModel, AssistantBlocks;
      out := [];
      if |model| > 0 { out := s.NameModel(model, at); }
      if content.Unlistable? { return out, false; }
      var events;
      events, finished := ReadAssistantBlocks(s, at, content.blocks);
      out := out + events;
    }

    method ReadUser(s: EventSequencer, at: Clock, blocks: seq<Block>) returns (out: seq<Event>, finished: bool)
      modifies this, s, s.budget
      ensures Step(With(s), finished) == UserBlocks(old(With(s)), blocks, at) && s.log == old(s.log) + out
    {
      hide UserBlock;
      out := [];
      ghost var first := With(s);
      for i := 0 to |blocks|
        invariant UserBlocks(With(s), blocks[i..], at) == UserBlocks(first, blocks, at) && s.log == old(s.log) + out
      {
        var events, read := ReadUserBlock(s, blocks[i], at);
        out := out + events;
        if !read { return out, false; }
      }
      finished := true;
    }

    method ReadRateLimit(s: EventSequencer, blocks: bool) returns (out: seq<Event>)
      modifies this, s, s.budget
      ensures With(s) == Pair(old(State()), DecodeRateLimit(old(s.State()), blocks)) && s.log == old(s.log) + out
    {
      out := s.QuotaSeen(Silent);
      if blocks {
        var ended := s.End(QuotaExhausted, Silent);
        out := out + ended;
      }
    }

    method EndRun(s: EventSequencer, at: Clock, failed: bool, quota: bool) returns (out: seq<Event>)
      modifies this, s, s.budget
      ensures With(s) == Pair(old(State()), Ending(old(s.State()), at, failed, quota)) && s.log == old(s.log) + out
    {
      hide Complete, ReportQuota, Fail;
      if !failed {
        out := s.Succeed(at);
      } else if quota {
        out := s.QuotaSeen(at);
        var ended := s.End(QuotaExhausted, at);
        out := out + ended;
      } else {
        out := s.End(BackendFailure, at);
      }
    }

    method ReadUsage(s: EventSequencer, at: Clock, usage: Option<Report>) returns (out: seq<Event>)
      modifies this, s, s.budget
      ensures With(s) == TellUsage(old(With(s)), at, usage) && s.log == old(s.log) + out
    {
      hide ReportUsage, MapUsage;
      out := [];
      if usage.Some? {
        reported := true;
        out := s.Usage(MapUsage(usage.value, delta), usage.value.faulty, at);
      }
    }

    method ReadResult(s: EventSequencer, at: Clock, usage: Option<Report>, failed: bool, quota: bool) returns (out: seq<Event>)
      modifies this, s, s.budget
      ensures With(s) == DecodeResult(old(With(s)), at, usage, failed, quota) && s.log == old(s.log) + out
    {
      hide Ending, TellUsage;
      out := ReadUsage(s, at, usage);
      var ended := EndRun(s, at, failed, quota);
      out := out + ended;
    }

    method ReadOpened(line: Line, s: EventSequencer) returns (out: seq<Event>, finished: bool)
      modifies this, s, s.budget
      ensures Step(With(s), finished) == DecodeOpened(old(With(s)), line) && s.log == old(s.log) + out
    {
      hide Notify, ResolveModel, EmitText, DecodeAssistant, UserBlocks, DecodeRateLimit, DecodeResult, TellUsage;
      out, finished := [], true;
      match line
      case Prose => out := s.Notice(NonJson, Silent);
      case SystemInit(model) => out := s.NameModel(model, Silent);
      case SystemOther => out := s.Notice(UnknownEvent, Silent);
      case StreamUsage(counts) => delta := Some(if delta.Some? then Plus(delta.value, counts) else counts);
      case StreamText(thinking, text) => out := s.Text(thinking, text, Silent);
      case StreamNull => finished := false;
      case Assistant(model, at, content) => out, finished := ReadAssistant(s, model, at, content);
      case User(at, content) =>
        if content.Unlistable? { finished := false; } else { out, finished := ReadUser(s, at, content.blocks); }
      case RateLimit(blocks) => out := ReadRateLimit(s, blocks);
      case Result(at, usage, failed, quota) => out := ReadResult(s, at, usage, failed, quota);
      case ResultNameless(at, usage) =>
        out := ReadUsage(s, at, usage);
        finished := false;
      case Unrecognized => out := s.Notice(UnknownEvent, Silent);
      case _ =>
    }

    /** One line in, its events out; when reading the line throws, nothing is returned. */
    method Read(line: Line, s: EventSequencer) returns (out: seq<Event>, finished: bool)
      modifies this, s, s.budget
      ensures Step(With(s), finished) == Decode(old(With(s)), line)
      ensures |old(s.log)| <= |s.log| && out == if finished then s.log[|old(s.log)|..] else []
    {
      hide DecodeOpened, EnsureStarted;
      if line.Blank? { return [], true; }
      var opening := Ensure(s);
      var events;
      events, finished := ReadOpened(line, s);
      out := if finished then opening + events else [];
      assert s.log == old(s.log) + (opening + events);
    }
  }

  method CloseRun(d: ClaudeStreamDecoder, s: EventSequencer, threw: bool, stop: Stop) returns (out: seq<Event>)
    modifies d, s, s.budget
    ensures s.State() == HostEnding(old(d.With(s)), threw, stop) && s.log == old(s.log) + out
  {
    hide EnsureStarted, FlushUsage, Cancel, Fail;
    var opening := d.Ensure(s);
    var usage := d.Flush(s);
    var ended;
    if stop.aborted || (stop.broke && !threw && stop.cancellation) {
      ended := s.Stop();
    } else {
      ended := s.End(if threw || stop.broke then BackendFailure else TerminalMissing, Silent);
    }
    out := opening + usage + ended;
  }

  /** parse: events are handed on as lines are decoded, a terminal is held back until the exit is measured. */
  method ParseRun(maxBytes: nat, maxEvents: nat, lines: seq<Line>, stop: Stop, exit: Option<int>) returns (events: seq<Event>)
    ensures events == Parse(NewRun(maxBytes, maxEvents), lines, stop, exit)
  {
    var budget := new OutputBudget(maxBytes, maxEvents);
    var sequencer := new EventSequencer(budget, None);
    var decoder := new ClaudeStreamDecoder();
    ghost var start := NewRun(maxBytes, maxEvents);
    assert decoder.With(sequencer) == start;
    events := [];
    var threw := false;
    var i := 0;
    while i < |lines| && !threw
      invariant i <= |lines| && sequencer.budget == budget && fresh(budget) && fresh(sequencer) && fresh(decoder)
      invariant !threw ==> ReadAll(decoder.With(sequencer), lines[i..], events) == ReadAll(start, lines, [])
      invariant threw ==> Read(decoder.With(sequencer), true, events) == ReadAll(start, lines, [])
    {
      var out, finished := decoder.Read(lines[i], sequencer);
      threw := !finished;
      events := events + out;
      i := i + 1;
    }
    if Settles(events) {
      events := Delivered(events, exit);
    } else {
      var ending := CloseRun(decoder, sequencer, threw, stop);
      events := events + ending;
    }
  }
}
