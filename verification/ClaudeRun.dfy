/** A whole Claude run, from stdout lines to the events its consumer sees, and exactly when they are well-formed. */
module ClaudeRun {
  import opened Text
  import opened Budgets
  import opened Sequencing
  import opened SequencingKept
  import opened ClaudeStream

  /** How the stream stopped: cleanly or with an error, and what the host knew about cancellation. */
  datatype Stop = Stop(broke: bool, cancellation: bool, aborted: bool)

  /** Where reading stopped: the state, whether a line threw, and the events handed on so far. */
  datatype Read = Read(p: Pair, threw: bool, kept: seq<Event>)

  function Since(before: Core, after: Core): seq<Event> {
    if |before.log| <= |after.log| then after.log[|before.log|..] else []
  }

  /** The read loop: a line's events are handed on only once the whole line is decoded. */
  function ReadAll(p: Pair, lines: seq<Line>, kept: seq<Event>): Read
    decreases |lines|
  {
    if lines == [] then Read(p, false, kept)
    else
      var step := Decode(p, lines[0]);
      if step.finished then ReadAll(step.p, lines[1..], kept + Since(p.c, step.p.c)) else Read(step.p, true, kept)
  }

  predicate Settles(events: seq<Event>) {
    exists e :: e in events && IsTerminal(e.body)
  }

  /** The host's own ending, for a run whose stream decoded no terminal. */
  function HostEnding(p: Pair, threw: bool, stop: Stop): Core {
    var q := FlushUsage(EnsureStarted(p));
    if stop.aborted || (stop.broke && !threw && stop.cancellation) then Cancel(q.c)
    else Fail(q.c, if threw || stop.broke then BackendFailure else TerminalMissing, Silent)
  }

  /** The measured exit code goes into a completed terminal as it is handed on. */
  function Measured(e: Event, exit: Option<int>): Event {
    if e.body.Completed? then Event(e.seqNo, Completed(exit)) else e
  }

  function Delivered(events: seq<Event>, exit: Option<int>): seq<Event> {
    if events == [] then [] else events[..|events| - 1] + [Measured(events[|events| - 1], exit)]
  }

  /** Every event a consumer of parse sees, in order. */
  function Parse(start: Pair, lines: seq<Line>, stop: Stop, exit: Option<int>): seq<Event> {
    var r := ReadAll(start, lines, []);
    if Settles(r.kept) then Delivered(r.kept, exit)
    else r.kept + Since(r.p.c, HostEnding(r.p, r.threw, stop))
  }

  /** What a line that threw had already stamped: events that were numbered but never handed on. */
  function Lost(start: Pair, lines: seq<Line>): seq<Event> {
    var r := ReadAll(start, lines, []);
    if |r.kept| <= |r.p.c.log| then r.p.c.log[|r.kept|..] else []
  }

  function NewRun(maxBytes: nat, maxEvents: nat): Pair {
    Pair(Decoder(false, {}, None, false), Opening(maxBytes, maxEvents, None))
  }

  lemma NewRunIsReady(maxBytes: nat, maxEvents: nat)
    ensures Ready(NewRun(maxBytes, maxEvents)) && NewRun(maxBytes, maxEvents).c.log == []
  {
    OpeningIsGood(maxBytes, maxEvents, None);
  }

  // ----- reading

  ghost predicate ReadWell(start: Pair, r: Read) {
    && Steady(r.p) && SameLimits(start.c, r.p.c) && r.kept <= r.p.c.log
    && (!r.threw ==> r.kept == r.p.c.log)
    && (Settles(r.kept) ==> r.kept == r.p.c.log && r.p.c.terminal)
  }

  lemma AliveSettles(c: Core)
    requires Good(c)
    ensures Settles(c.log) ==> c.terminal
    ensures c.terminal ==> Settles(c.log)
  {
    if Settles(c.log) {
      var e :| e in c.log && IsTerminal(e.body);
      Counted(c.log, e);
    }
    if c.terminal { assert c.log[|c.log| - 1] in c.log; }
  }

  lemma {:induction false} Counted(log: seq<Event>, e: Event)
    requires e in log && IsTerminal(e.body)
    ensures CountOf(log, TTerminal) >= 1
  {
    var init := log[..|log| - 1];
    if e in init {
      Counted(init, e);
    } else {
      assert log == init + [log[|log| - 1]];
    }
  }

  lemma ReadyGood(p: Pair)
    requires Steady(p)
    ensures Good(p.c)
  {}

  lemma {:induction false} ReadKeeps(p: Pair, lines: seq<Line>)
    requires Ready(p)
    ensures ReadWell(p, ReadAll(p, lines, p.c.log))
    decreases |lines|
  {
    hide Ready, Steady, Decode, Good;
    ReadySteady(p);
    ReadyGood(p);
    AliveSettles(p.c);
    if lines != [] {
      var step := Decode(p, lines[0]);
      DecodeKeeps(p, lines[0]);
      if step.finished {
        assert p.c.log + Since(p.c, step.p.c) == step.p.c.log;
        ReadKeeps(step.p, lines[1..]);
      }
    }
  }

  // ----- the ending

  lemma FlushKeeps(p: Pair)
    requires Steady(p) && p.d.started
    ensures var q := FlushUsage(p);
      Alive(q.c) && p.c.log <= q.c.log && SameLimits(p.c, q.c) && q.c.terminal == p.c.terminal && CountOf(q.c.log, TUsage) <= 1
      && (p.c.terminal ==> q.c == p.c)
  {
    hide Good, WellFormed, ReportUsage;
    if p.d.delta.Some? { AnyUsage(p.c, p.d.delta.value, false, Silent); }
  }

  lemma HostEnds(p: Pair, threw: bool, stop: Stop)
    requires Steady(p)
    ensures var x := HostEnding(p, threw, stop);
      Ended(x) && p.c.log <= x.log && SameLimits(p.c, x) && CountOf(x.log, TUsage) <= 1 && (p.c.terminal ==> x == p.c)
  {
    hide Ready, Steady, Good, WellFormed, FlushUsage, EnsureStarted, Fail, Cancel;
    OpenedReady(p);
    FlushKeeps(EnsureStarted(p));
    var q := FlushUsage(EnsureStarted(p));
    AnyEnd(q.c, if threw || stop.broke then BackendFailure else TerminalMissing, Silent);
  }

  lemma MeasuredIsTerminal(log: seq<Event>, exit: Option<int>)
    requires WellFormed(log)
    ensures WellFormed(Delivered(log, exit)) && forall tag :: CountOf(Delivered(log, exit), tag) == CountOf(log, tag)
    ensures |Delivered(log, exit)| == |log| && forall i :: 0 <= i < |log| ==> TagOf(Delivered(log, exit)[i].body) == TagOf(log[i].body)
    ensures TextBytes(Delivered(log, exit)) == TextBytes(log)
  {
    var out := Delivered(log, exit);
    assert out[..|out| - 1] == log[..|log| - 1];
  }

  /** All the limits a delivered run keeps. */
  ghost predicate Bounded(events: seq<Event>, maxBytes: nat, maxEvents: nat) {
    && |events| <= (if maxEvents < 2 then 2 else maxEvents) + 2
    && TextBytes(events) <= maxBytes
    && CountOf(events, TUsage) <= 1 && CountOf(events, TResolved) <= 1 && CountOf(events, TSkew) <= 1 && CountOf(events, TTruncated) <= 1
  }

  /** The run opens with run.started, once. */
  ghost predicate OpensOnce(events: seq<Event>) {
    events != [] && TagOf(events[0].body) == TStarted && CountOf(events, TStarted) == 1
  }

  lemma EndedBounds(x: Core)
    requires Ended(x) && CountOf(x.log, TUsage) <= 1
    ensures WellFormed(x.log) && OpensOnce(x.log) && Bounded(x.log, x.budget.maxBytes, x.budget.maxEvents)
  {}

  ghost predicate RunsWell(events: seq<Event>, maxBytes: nat, maxEvents: nat) {
    WellFormed(events) && OpensOnce(events) && Bounded(events, maxBytes, maxEvents)
  }

  lemma AllKept(start: Pair, lines: seq<Line>)
    requires Ready(start) && start.c.log == [] && Lost(start, lines) == []
    ensures var r := ReadAll(start, lines, []); ReadWell(start, r) && r.kept == r.p.c.log
  {
    hide Ready, Steady, Settles, SameLimits;
    ReadKeeps(start, lines);
    var r := ReadAll(start, lines, []);
    assert r.p.c.log == r.kept + r.p.c.log[|r.kept|..];
  }

  lemma DeliveredRun(p: Pair, exit: Option<int>)
    requires Steady(p) && p.c.terminal
    ensures RunsWell(Delivered(p.c.log, exit), p.c.budget.maxBytes, p.c.budget.maxEvents)
  {
    hide Steady;
    SettledRun(p);
    MeasuredIsTerminal(p.c.log, exit);
  }

  lemma EndedRun(p: Pair, threw: bool, stop: Stop)
    requires Steady(p)
    ensures var x := HostEnding(p, threw, stop);
      p.c.log + Since(p.c, x) == x.log && RunsWell(x.log, p.c.budget.maxBytes, p.c.budget.maxEvents)
  {
    hide Steady, HostEnding, Ended, WellFormed, OpensOnce, Bounded;
    HostEnds(p, threw, stop);
    EndedBounds(HostEnding(p, threw, stop));
  }

  /** Nothing lost: the consumer sees everything that was stamped. */
  lemma NothingLost(start: Pair, lines: seq<Line>, stop: Stop, exit: Option<int>)
    requires Ready(start) && start.c.log == [] && Lost(start, lines) == []
    ensures RunsWell(Parse(start, lines, stop, exit), start.c.budget.maxBytes, start.c.budget.maxEvents)
  {
    hide Ready, Steady, ReadAll, HostEnding, RunsWell, Delivered, Since, Settles;
    AllKept(start, lines);
    var r := ReadAll(start, lines, []);
    if Settles(r.kept) {
      DeliveredRun(r.p, exit);
    } else {
      EndedRun(r.p, r.threw, stop);
    }
  }

  lemma SettledRun(p: Pair)
    requires Steady(p) && p.c.terminal
    ensures Ended(p.c) && CountOf(p.c.log, TUsage) <= 1
    ensures WellFormed(p.c.log) && OpensOnce(p.c.log) && Bounded(p.c.log, p.c.budget.maxBytes, p.c.budget.maxEvents)
  {}

  lemma {:induction false} NoTerminal(events: seq<Event>)
    requires !Settles(events)
    ensures CountOf(events, TTerminal) == 0
  {
    if events != [] {
      var init := events[..|events| - 1];
      assert events[|events| - 1] in events;
      forall e | e in init ensures e in events {}
      NoTerminal(init);
    }
  }

  /** Something lost: the numbers a consumer sees skip, or no terminal ever arrives. */
  lemma SomethingLost(start: Pair, lines: seq<Line>, stop: Stop, exit: Option<int>)
    requires Ready(start) && start.c.log == [] && Lost(start, lines) != []
    ensures !WellFormed(Parse(start, lines, stop, exit))
  {
    var r := ReadAll(start, lines, []);
    ReadKeeps(start, lines);
    assert !Settles(r.kept);
    HostEnds(r.p, r.threw, stop);
    var x := HostEnding(r.p, r.threw, stop);
    var events := r.kept + Since(r.p.c, x);
    if r.p.c.terminal {
      assert Since(r.p.c, x) == [];
      assert events == r.kept;
      NoTerminal(events);
    } else {
      EndedNumbered(x);
      EndedLonger(r.p.c, x);
      assert events[|r.kept|] == x.log[|r.p.c.log|];
    }
  }

  lemma EndedNumbered(x: Core)
    requires Ended(x)
    ensures Numbered(x.log)
  {}

  lemma EndedLonger(c: Core, x: Core)
    requires Good(c) && !c.terminal && Ended(x) && c.log <= x.log
    ensures |c.log| < |x.log|
  {
    assert |c.log| == |x.log| ==> c.log == x.log;
  }

  /**
   For any lines, any stop and any limits: what the consumer sees is a well-formed run, opening once and
   ending once, exactly when no line that threw had stamped an event first.
  */
  lemma ParseIsWellFormedIff(maxBytes: nat, maxEvents: nat, lines: seq<Line>, stop: Stop, exit: Option<int>)
    ensures var start := NewRun(maxBytes, maxEvents);
      WellFormed(Parse(start, lines, stop, exit)) <==> Lost(start, lines) == []
    ensures var start := NewRun(maxBytes, maxEvents);
      Lost(start, lines) == [] ==> OpensOnce(Parse(start, lines, stop, exit)) && Bounded(Parse(start, lines, stop, exit), maxBytes, maxEvents)
  {
    hide Ready, Steady, ReadAll, WellFormed, Bounded, OpensOnce, Parse, Lost, Good;
    var start := NewRun(maxBytes, maxEvents);
    NewRunIsReady(maxBytes, maxEvents);
    if Lost(start, lines) == [] { NothingLost(start, lines, stop, exit); } else { SomethingLost(start, lines, stop, exit); }
  }

  /** However many lines are read, the delta sum is exactly what they reported. */
  lemma {:induction false} ReadSums(p: Pair, done: seq<Line>, lines: seq<Line>, kept: seq<Event>)
    requires Sums(p.d, done) && !ReadAll(p, lines, kept).threw
    ensures Sums(ReadAll(p, lines, kept).p.d, done + lines)
    decreases |lines|
  {
    if lines == [] {
      assert done + lines == done;
    } else {
      SumsKept(p, done, lines[0]);
      var step := Decode(p, lines[0]);
      ReadSums(step.p, done + [lines[0]], lines[1..], kept + Since(p.c, step.p.c));
      assert done + [lines[0]] + lines[1..] == done + lines;
    }
  }

  // ----- which lines throw, and what a line that throws has stamped

  predicate HoldsNull(blocks: seq<Block>) {
    exists i :: 0 <= i < |blocks| && blocks[i].NullBlock?
  }

  /** A line that throws whatever came before it: a null event, content that cannot be listed, a null block,
      or a failure whose subtype cannot be turned into text. */
  predicate Throws(line: Line) {
    match line
    case StreamNull => true
    case Assistant(_, _, content) => content.Unlistable? || HoldsNull(content.blocks)
    case User(_, content) => content.Unlistable? || HoldsNull(content.blocks)
    case ResultNameless(_, _) => true
    case _ => false
  }

  lemma {:induction false} AssistantThrows(p: Pair, blocks: seq<Block>, at: Clock)
    ensures AssistantBlocks(p, blocks, at).finished <==> !HoldsNull(blocks)
    decreases |blocks|
  {
    hide ToolRequested;
    if blocks != [] {
      AssistantThrows(AssistantBlock(p, blocks[0], at).p, blocks[1..], at);
      NullInTail(blocks);
    }
  }

  lemma {:induction false} UserThrows(p: Pair, blocks: seq<Block>, at: Clock)
    ensures UserBlocks(p, blocks, at).finished <==> !HoldsNull(blocks)
    decreases |blocks|
  {
    hide ToolCompleted;
    if blocks != [] {
      UserThrows(UserBlock(p, blocks[0], at).p, blocks[1..], at);
      NullInTail(blocks);
    }
  }

  lemma NullInTail(blocks: seq<Block>)
    requires blocks != []
    ensures HoldsNull(blocks) <==> blocks[0].NullBlock? || HoldsNull(blocks[1..])
  {
    if i :| 0 <= i < |blocks| && blocks[i].NullBlock? {
      if i > 0 { assert blocks[1..][i - 1].NullBlock?; }
    }
    if i :| 0 <= i < |blocks[1..]| && blocks[1..][i].NullBlock? { assert blocks[i + 1].NullBlock?; }
  }

  /** Whether a line throws depends on the line alone. */
  lemma ThrowsIff(p: Pair, line: Line)
    ensures Decode(p, line).finished <==> !Throws(line)
  {
    hide *;
    if line.Assistant? && line.content.Blocks? {
      AssistantThrows(Named(p, line), line.content.blocks, line.at);
    }
    if line.User? && line.content.Blocks? { UserThrows(EnsureStarted(p), line.content.blocks, line.at); }
    FinishedIs(p, line);
  }

  /** The run once an assistant line has named its model. */
  function Named(p: Pair, line: Line): Pair
    requires line.Assistant?
  {
    var q := EnsureStarted(p);
    if line.model == "" then q else Pair(q.d, ResolveModel(q.c, line.model, line.at))
  }

  lemma FinishedIs(p: Pair, line: Line)
    requires line.Assistant? && line.content.Blocks? ==>
      (AssistantBlocks(Named(p, line), line.content.blocks, line.at).finished <==> !HoldsNull(line.content.blocks))
    requires line.User? && line.content.Blocks? ==> (UserBlocks(EnsureStarted(p), line.content.blocks, line.at).finished <==> !HoldsNull(line.content.blocks))
    ensures Decode(p, line).finished <==> !Throws(line)
  {
    hide HoldsNull, AssistantBlocks, UserBlocks, ResolveModel, EnsureStarted, Notify, EmitText, DecodeRateLimit, DecodeResult, TellUsage, Accumulate;
  }

  /** The state in which the first k lines, none of which throws, leave the run. */
  function After(p: Pair, lines: seq<Line>): Pair
    decreases |lines|
  {
    if lines == [] then p else After(Decode(p, lines[0]).p, lines[1..])
  }

  lemma {:induction false} ReadTo(p: Pair, lines: seq<Line>, k: nat, kept: seq<Event>)
    requires Ready(p) && p.c.log == kept && k <= |lines| && forall i :: 0 <= i < k ==> !Throws(lines[i])
    ensures var q := After(p, lines[..k]); Ready(q) && ReadAll(p, lines, kept) == ReadAll(q, lines[k..], q.c.log)
    decreases k
  {
    hide Ready, Steady, Decode, Throws;
    if k == 0 {
      assert lines[..0] == [] && lines[0..] == lines;
    } else {
      var step := Decode(p, lines[0]);
      assert !Throws(lines[0]);
      ThrowsIff(p, lines[0]);
      DecodeKeeps(p, lines[0]);
      Continues(p, step.p);
      assert lines[..k][1..] == lines[1..][..k - 1] && lines[1..][k - 1..] == lines[k..];
      ReadTo(step.p, lines[1..], k - 1, kept + Since(p.c, step.p.c));
    }
  }

  lemma Continues(p: Pair, q: Pair)
    requires Moves(p, q)
    ensures p.c.log + Since(p.c, q.c) == q.c.log
  {}

  /** Nothing is lost where no line throws; otherwise what is lost is what the first line that throws had stamped. */
  lemma LostIsWhatTheFaultStamped(maxBytes: nat, maxEvents: nat, lines: seq<Line>, k: nat)
    requires k <= |lines| && (forall i :: 0 <= i < k ==> !Throws(lines[i])) && (k < |lines| ==> Throws(lines[k]))
    ensures var q := After(NewRun(maxBytes, maxEvents), lines[..k]);
      Lost(NewRun(maxBytes, maxEvents), lines) == if k == |lines| then [] else Since(q.c, Decode(q, lines[k]).p.c)
  {
    hide Ready, Steady, Decode, Throws, NewRun, After, Good;
    var start := NewRun(maxBytes, maxEvents);
    NewRunIsReady(maxBytes, maxEvents);
    ReadTo(start, lines, k, []);
    var q := After(start, lines[..k]);
    if k < |lines| {
      ThrowsIff(q, lines[k]);
      DecodeKeeps(q, lines[k]);
      Continues(q, Decode(q, lines[k]).p);
      assert lines[k..][0] == lines[k];
    }
  }

  /** A run none of whose lines throws is always well-formed. */
  lemma SoundLinesAreWellFormed(maxBytes: nat, maxEvents: nat, lines: seq<Line>, stop: Stop, exit: Option<int>)
    requires forall i :: 0 <= i < |lines| ==> !Throws(lines[i])
    ensures WellFormed(Parse(NewRun(maxBytes, maxEvents), lines, stop, exit))
  {
    hide *;
    LostIsWhatTheFaultStamped(maxBytes, maxEvents, lines, |lines|);
    ParseIsWellFormedIff(maxBytes, maxEvents, lines, stop, exit);
  }

  // ----- two runs that lose events

  /** The first line names the model and then holds content that cannot be listed. */
  function FaultOnFirstLine(model: string): seq<Line> {
    [Assistant(model, Silent, Unlistable)]
  }

  /** The run opened and resolved its model, but neither event reaches the consumer. */
  lemma FirstLineFault(maxBytes: nat, maxEvents: nat, model: string, stop: Stop, exit: Option<int>)
    requires Representable(model)
    ensures Lost(NewRun(maxBytes, maxEvents), FaultOnFirstLine(model)) == [Event(1, Started), Event(2, Resolved(model))]
    ensures !WellFormed(Parse(NewRun(maxBytes, maxEvents), FaultOnFirstLine(model), stop, exit))
  {
    ParseIsWellFormedIff(maxBytes, maxEvents, FaultOnFirstLine(model), stop, exit);
  }

  /** The second line ends the run on a model mismatch and then throws: no terminal ever arrives. */
  function FaultAfterMismatch(model: string, other: string): seq<Line> {
    [SystemInit(model), Assistant(other, Silent, Unlistable)]
  }

  lemma TerminalLost(maxBytes: nat, maxEvents: nat, model: string, other: string, stop: Stop, exit: Option<int>)
    requires Representable(model) && Representable(other) && model != other
    ensures Parse(NewRun(maxBytes, maxEvents), FaultAfterMismatch(model, other), stop, exit)
            == [Event(1, Started), Event(2, Resolved(model))]
  {
    var start := NewRun(maxBytes, maxEvents);
    var lines := FaultAfterMismatch(model, other);
    var one := Decode(start, lines[0]);
    assert one.finished && one.p.c.log == [Event(1, Started), Event(2, Resolved(model))];
    assert lines[1..] == [lines[1]];
    var two := Decode(one.p, lines[1]);
    assert !two.finished && two.p.c.terminal && two.p.c.log == one.p.c.log + [Event(3, Failed(ModelMismatch))];
    var r := ReadAll(one.p, lines[1..], [] + Since(start.c, one.p.c));
    assert r == Read(two.p, true, one.p.c.log);
    assert HostEnding(two.p, true, stop) == two.p.c;
  }
}
