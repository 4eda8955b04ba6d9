/** The sequencer and its budget as the objects they are: each method moves the state exactly as specified. */
module EventSequencers {
  import opened Text
  import opened Utf8
  import opened Budgets
  import opened Sequencing

  class OutputBudget {
    const maxBytes: nat
    const maxEvents: nat
    var textBytes: nat
    var events: nat
    var obligations: nat
    var truncated: bool
    var capped: bool
    var pending: bool
    var announced: bool

    function View(): Budget
      reads this
    {
      Budget(maxBytes, maxEvents, textBytes, events, obligations, truncated, capped, pending, announced)
    }

    constructor (bytes: nat, count: nat)
      ensures View() == Fresh(bytes, count)
    {
      maxBytes, maxEvents := bytes, count;
      textBytes, events, obligations := 0, 0, 0;
      truncated, capped, pending, announced := false, false, false, false;
    }

    method Offer() returns (accepted: bool)
      modifies this
      ensures View() == old(View()).Offered() && accepted == old(View()).Accepts()
    {
      if capped { return false; }
      if events + 1 + obligations + 1 + 1 <= maxEvents {
        events := events + 1;
        return true;
      }
      capped, pending := true, true;
      return false;
    }

    method Spend()
      modifies this
      ensures View() == old(View()).Spent()
    {
      events := events + 1;
    }

    method Oblige()
      modifies this
      ensures View() == old(View()).Obliged()
    {
      obligations := obligations + 1;
    }

    method Discharge()
      modifies this
      ensures View() == old(View()).Discharged()
    {
      if obligations > 0 { obligations := obligations - 1; }
    }

    method FitText(value: string) returns (text: string)
      modifies this
      ensures View() == old(View()).Fitted(value) && text == old(View()).FitText(value)
    {
      if truncated { return ""; }
      if maxBytes <= textBytes {
        truncated, pending := true, true;
        return "";
      }
      if Length(value) <= maxBytes - textBytes { return value; }
      text := Fitting(value, maxBytes - textBytes);
      truncated, pending := true, true;
    }

    method ChargeText(bytes: nat)
      modifies this
      ensures View() == old(View()).Charged(bytes)
    {
      textBytes := textBytes + bytes;
    }

    method ClaimNotice() returns (claimed: bool)
      modifies this
      ensures View() == old(View()).Claimed() && claimed == old(View()).Announces()
    {
      var waiting := pending;
      pending := false;
      if !waiting || announced { return false; }
      if events + 1 + obligations + 1 > maxEvents { return false; }
      announced := true;
      events := events + 1;
      return true;
    }
  }

  class EventSequencer {
    const budget: OutputBudget
    const attributed: Option<string>
    var seqNo: nat
    var started: bool
    var terminal: bool
    var resolved: Option<string>
    var open: seq<(string, nat)>
    var toolCount: nat
    var lastAt: Option<int>
    var skewNoticed: bool
    ghost var log: seq<Event>

    ghost function State(): Core
      reads this, budget
    {
      Core(budget.View(), seqNo, started, terminal, resolved, attributed, open, toolCount, lastAt, skewNoticed, log)
    }

    constructor (limits: OutputBudget, route: Option<string>)
      ensures budget == limits && State() == Core(limits.View(), 0, false, false, None, route, [], 0, None, false, [])
    {
      budget, attributed := limits, route;
      seqNo, started, terminal, resolved, open, toolCount, lastAt, skewNoticed, log := 0, false, false, None, [], 0, None, false, [];
    }

    method Mint(body: Payload) returns (e: Event)
      modifies this
      ensures State() == Stamp(old(State()), body) && log == old(log) + [e]
    {
      seqNo := seqNo + 1;
      e := Event(seqNo, body);
      log := log + [e];
    }

    method Advise(at: Clock) returns (out: seq<Event>)
      modifies this, budget
      ensures State() == ClockAdvisory(old(State()), at) && log == old(log) + out
    {
      out := [];
      if at.Silent? { return; }
      var skewed := at.Unreadable? || (lastAt.Some? && at.at < lastAt.value);
      if at.Reads? && (lastAt.None? || at.at > lastAt.value) { lastAt := Some(at.at); }
      if !skewed || skewNoticed { return; }
      skewNoticed := true;
      budget.Spend();
      var e := Mint(Noticed(ClockSkew));
      out := [e];
    }

    method Drain() returns (out: seq<Event>)
      modifies this, budget
      ensures State() == DrainNotice(old(State())) && log == old(log) + out
    {
      out := [];
      var claimed := budget.ClaimNotice();
      if claimed {
        var e := Mint(Noticed(OutputTruncated));
        out := [e];
      }
    }

    method OfferOne(body: Payload) returns (out: seq<Event>)
      modifies this, budget
      ensures State() == OfferEvent(old(State()), body) && log == old(log) + out
    {
      out := [];
      var accepted := budget.Offer();
      if accepted {
        var e := Mint(body);
        out := [e];
      }
    }

    method OfferOptional(body: Payload, at: Clock) returns (out: seq<Event>)
      modifies this, budget
      ensures State() == Optional(old(State()), body, at) && log == old(log) + out
    {
      hide ClockAdvisory, OfferEvent, DrainNotice;
      out := Advise(at);
      var offered := OfferOne(body);
      var drained := Drain();
      out := out + offered + drained;
    }

    method Notice(notice: Sequencing.Notice, at: Clock) returns (out: seq<Event>)
      modifies this, budget
      ensures State() == Notify(old(State()), notice, at) && log == old(log) + out
    {
      if terminal { return []; }
      out := OfferOptional(Noticed(notice), at);
    }

    method Begin() returns (out: seq<Event>)
      modifies this, budget
      ensures State() == Start(old(State())) && log == old(log) + out
    {
      if terminal { return []; }
      if started {
        out := Notice(UnknownEvent, Silent);
        return;
      }
      started := true;
      budget.Spend();
      var e := Mint(Started);
      out := [e];
    }

    method Resolve(model: string) returns (out: seq<Event>)
      modifies this, budget
      ensures State() == ResolveTo(old(State()), model) && log == old(log) + out
    {
      resolved := Some(model);
      budget.Spend();
      var e := Mint(Resolved(model));
      out := [e];
    }

    method NameModel(model: string, at: Clock) returns (out: seq<Event>)
      modifies this, budget
      ensures State() == ResolveModel(old(State()), model, at) && log == old(log) + out
    {
      if terminal { return []; }
      if !Representable(model) {
        out := End(ModelUnresolved, at);
      } else if resolved.Some? {
        if resolved.value == model { return []; }
        out := End(ModelMismatch, at);
      } else {
        out := Resolve(model);
      }
    }

    method Text(thinking: bool, value: string, at: Clock) returns (out: seq<Event>)
      modifies this, budget
      ensures State() == EmitText(old(State()), thinking, value, at) && log == old(log) + out
    {
      hide ClockAdvisory, FitAndOffer, DrainNotice;
      if terminal || |value| == 0 { return []; }
      out := Advise(at);
      var emitted := EmitFitted(thinking, value);
      var drained := Drain();
      out := out + emitted + drained;
    }

    /** The part of the text that fits, charged only if it is emitted. */
    method EmitFitted(thinking: bool, value: string) returns (out: seq<Event>)
      modifies this, budget
      ensures State() == FitAndOffer(old(State()), thinking, value) && log == old(log) + out
    {
      out := [];
      var fit := budget.FitText(value);
      if |fit| > 0 {
        var accepted := budget.Offer();
        if accepted {
          var e := Mint(Delta(thinking, fit));
          out := [e];
          budget.ChargeText(Length(fit));
        }
      }
    }

    method OpenTool(id: string) returns (out: seq<Event>)
      modifies this, budget
      ensures State() == OpenCall(old(State()), id) && log == old(log) + out
    {
      out := [];
      if IsOpen(open, id) { return; }
      budget.Oblige();
      var accepted := budget.Offer();
      if !accepted {
        budget.Discharge();
      } else {
        toolCount := toolCount + 1;
        var e := Mint(Requested(toolCount));
        open := open + [(id, toolCount)];
        out := [e];
      }
    }

    method RequestTool(id: string, at: Clock) returns (out: seq<Event>)
      modifies this, budget
      ensures State() == ToolRequested(old(State()), id, at) && log == old(log) + out
    {
      hide ClockAdvisory, OpenCall, DrainNotice;
      if terminal || |id| == 0 { return []; }
      out := Advise(at);
      var requested := OpenTool(id);
      var drained := Drain();
      out := out + requested + drained;
    }

    method SettleCall(call: nat, outcome: Outcome) returns (e: Event)
      modifies this, budget
      ensures State() == Settle(old(State()), call, outcome) && log == old(log) + [e]
    {
      budget.Discharge();
      budget.Spend();
      e := Mint(Settled(call, outcome));
    }

    method CompleteTool(id: string, outcome: Outcome, at: Clock) returns (out: seq<Event>)
      modifies this, budget
      ensures State() == ToolCompleted(old(State()), id, outcome, at) && log == old(log) + out
    {
      if terminal { return []; }
      if !IsOpen(open, id) {
        out := Notice(UnknownEvent, at);
        return;
      }
      var call := NumberFor(open, id);
      open := Without(open, id);
      var e := SettleCall(call, outcome);
      out := [e];
    }

    method Usage(counts: Counts, faulty: bool, at: Clock) returns (out: seq<Event>)
      modifies this, budget
      ensures State() == ReportUsage(old(State()), counts, faulty, at) && log == old(log) + out
    {
      hide Optional;
      if terminal { return []; }
      out := [];
      if faulty { out := Notice(MalformedUsage, at); }
      var told := OfferOptional(Payload.Usage(counts), at);
      out := out + told;
    }

    method QuotaSeen(at: Clock) returns (out: seq<Event>)
      modifies this, budget
      ensures State() == ReportQuota(old(State()), at) && log == old(log) + out
    {
      if terminal { return []; }
      out := OfferOptional(Quota, at);
    }

    /** Settle every open call, oldest first, before a terminal. */
    method CloseTools(outcome: Outcome) returns (out: seq<Event>)
      modifies this, budget
      ensures State() == SettleAll(old(State()), outcome) && log == old(log) + out
    {
      ghost var start := State();
      out := [];
      while |open| > 0
        invariant SettleAll(State(), outcome) == SettleAll(start, outcome) && log == old(log) + out
        decreases |open|
      {
        var call := open[0].1;
        open := open[1..];
        var e := SettleCall(call, outcome);
        out := out + [e];
      }
    }

    method Finish(body: Payload) returns (e: Event)
      modifies this, budget
      ensures State() == Terminate(old(State()), body) && log == old(log) + [e]
    {
      terminal := true;
      budget.Spend();
      e := Mint(body);
    }

    method End(code: ErrorCode, at: Clock) returns (out: seq<Event>)
      modifies this, budget
      ensures State() == Fail(old(State()), code, at) && log == old(log) + out
    {
      hide ClockAdvisory, SettleAll, Terminate;
      if terminal { return []; }
      out := Advise(at);
      var closed := CloseTools(Error);
      var e := Finish(Failed(code));
      out := out + closed + [e];
    }

    method Stop() returns (out: seq<Event>)
      modifies this, budget
      ensures State() == Cancel(old(State())) && log == old(log) + out
    {
      hide SettleAll, Terminate;
      if terminal { return []; }
      var closed := CloseTools(Dropped);
      var e := Finish(Cancelled);
      out := closed + [e];
    }

    /** The route's identity, only when the stream never gave one. */
    method Attribute() returns (out: seq<Event>)
      modifies this, budget
      ensures State() == Attributed(old(State())) && log == old(log) + out
    {
      out := [];
      if resolved.None? && attributed.Some? && Representable(attributed.value) { out := Resolve(attributed.value); }
    }

    method Succeed(at: Clock) returns (out: seq<Event>)
      modifies this, budget
      ensures State() == Complete(old(State()), at) && log == old(log) + out
    {
      hide ClockAdvisory, SettleAll, Attributed, Terminate;
      if terminal { return []; }
      out := Advise(at);
      var closed := CloseTools(Error);
      var named := Attribute();
      out := out + closed + named;
      var e := Finish(if resolved.None? then Failed(ModelUnresolved) else Completed(None));
      out := out + [e];
    }
  }
}
