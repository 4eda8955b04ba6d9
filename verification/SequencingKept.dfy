/** Every call on the sequencer keeps the run's invariants and only ever adds to what was stamped. */
module SequencingKept {
  import opened Text
  import opened Utf8
  import opened Budgets
  import opened Sequencing

  // ----- one more event

  lemma Appended(log: seq<Event>, e: Event)
    ensures (log + [e])[..|log|] == log
    ensures forall tag :: CountOf(log + [e], tag) == CountOf(log, tag) + if TagOf(e.body) == tag then 1 else 0
    ensures TextBytes(log + [e]) == TextBytes(log) + if e.body.Delta? then Length(e.body.text) else 0
    ensures Numbered(log) && e.seqNo == |log| + 1 ==> Numbered(log + [e])
    ensures !e.body.Requested? && !e.body.Settled? ==> ToolScan(log + [e]) == ToolScan(log)
    ensures OpenCalls(log + [e]) == OpenCalls(log) + (if e.body.Requested? then 1 else if e.body.Settled? then -1 else 0)
    ensures forall cap {:trigger Afforded(log + [e], cap)} :: Afforded(log + [e], cap) <==> Afforded(log, cap) && Fitted(e.body, Committed(log + [e]), cap)
  {
    assert (log + [e])[..|log|] == log;
  }

  ghost predicate SameTools(c: Core, x: Core) {
    x.open == c.open && x.toolCount == c.toolCount && x.budget.obligations == c.budget.obligations
  }

  ghost predicate SameLimits(c: Core, x: Core) {
    x.budget.maxBytes == c.budget.maxBytes && x.budget.maxEvents == c.budget.maxEvents && x.attributed == c.attributed
  }

  ghost predicate Running(c: Core) {
    Good(c) && c.started && !c.terminal
  }

  /** What a call may do to a running sequence: add to it, never rewrite it. */
  ghost predicate Grows(c: Core, x: Core, reports: nat) {
    c.log <= x.log && SameLimits(c, x) && CountOf(x.log, TUsage) <= CountOf(c.log, TUsage) + reports
  }

  predicate PlainTag(body: Payload) {
    !body.Started? && !body.Requested? && !body.Settled? && !IsTerminal(body)
  }

  /** x is c about to stamp: its flags, charges and text bytes already count this event. */
  ghost predicate Charged1(c: Core, x: Core, body: Payload) {
    && x.log == c.log && x.seqNo == c.seqNo && x.started == c.started && x.terminal == c.terminal
    && SameTools(c, x) && SameLimits(c, x) && x.budget.events == c.budget.events + 1
    && Bit(x.resolved.Some?) == Bit(c.resolved.Some?) + Bit(TagOf(body) == TResolved)
    && Bit(x.skewNoticed) == Bit(c.skewNoticed) + Bit(TagOf(body) == TSkew)
    && Bit(x.budget.announced) == Bit(c.budget.announced) + Bit(TagOf(body) == TTruncated)
    && x.budget.textBytes == c.budget.textBytes + (if body.Delta? then Length(body.text) else 0) <= x.budget.maxBytes
    && x.seqNo + 1 + x.budget.Owed()
       <= Cap(x.budget.maxEvents) + Bit(x.skewNoticed) + Bit(x.resolved.Some?)
    && (Unreserved(body) || x.seqNo + 1 + x.budget.Owed() <= Cap(x.budget.maxEvents))
  }

  lemma EmitKeeps(c: Core, x: Core, body: Payload)
    requires Running(c) && PlainTag(body) && Charged1(c, x, body)
    ensures Running(Stamp(x, body)) && Grows(c, Stamp(x, body), Bit(body.Usage?)) && SameTools(c, Stamp(x, body))
  {
    hide ToolsWell, CountsWell, EndsWell, WithinBudget, Paid;
    EmitTools(c, x, body);
    EmitCounts(c, x, body);
    EmitPays(c, x, body);
    Appended(c.log, Event(c.seqNo + 1, body));
  }

  lemma EmitTools(c: Core, x: Core, body: Payload)
    requires ToolsWell(c) && PlainTag(body) && Charged1(c, x, body)
    ensures ToolsWell(Stamp(x, body))
  {
    hide OpenWell, OpenNumbers, ToolScan;
    Appended(c.log, Event(c.seqNo + 1, body));
  }

  lemma EmitCounts(c: Core, x: Core, body: Payload)
    requires Running(c) && PlainTag(body) && Charged1(c, x, body)
    ensures CountsWell(Stamp(x, body)) && EndsWell(Stamp(x, body))
  {
    hide ToolsWell, Paid;
    Appended(c.log, Event(c.seqNo + 1, body));
  }

  lemma EmitPays(c: Core, x: Core, body: Payload)
    requires Running(c) && PlainTag(body) && Charged1(c, x, body)
    ensures WithinBudget(Stamp(x, body)) && Paid(Stamp(x, body))
  {
    hide ToolsWell, CountsWell, EndsWell;
    Appended(c.log, Event(c.seqNo + 1, body));
  }

  lemma ClockKeeps(c: Core, at: Clock)
    requires Running(c)
    ensures var x := ClockAdvisory(c, at); Running(x) && Grows(c, x, 0) && SameTools(c, x) && x.resolved == c.resolved
  {
    var next := Clocked(c, at);
    if Skewed(c, at) && !c.skewNoticed {
      EmitKeeps(c, next.(skewNoticed := true, budget := next.budget.Spent()), Noticed(ClockSkew));
    }
  }

  lemma DrainKeeps(c: Core)
    requires Running(c)
    ensures var x := DrainNotice(c); Running(x) && Grows(c, x, 0) && SameTools(c, x) && x.resolved == c.resolved
  {
    if c.budget.Announces() {
      EmitKeeps(c, c.(budget := c.budget.Claimed()), Noticed(OutputTruncated));
    }
  }

  lemma OfferKeeps(c: Core, body: Payload)
    requires Running(c) && PlainTag(body) && !body.Delta? && TagOf(body) !in {TResolved, TSkew, TTruncated}
    ensures var x := OfferEvent(c, body); Running(x) && Grows(c, x, Bit(body.Usage?)) && SameTools(c, x) && x.resolved == c.resolved
  {
    if c.budget.Accepts() {
      EmitKeeps(c, c.(budget := c.budget.Offered()), body);
    }
  }

  lemma OptionalKeeps(c: Core, body: Payload, at: Clock)
    requires Running(c) && PlainTag(body) && !body.Delta? && TagOf(body) !in {TResolved, TSkew, TTruncated}
    ensures var x := Optional(c, body, at); Running(x) && Grows(c, x, Bit(body.Usage?)) && SameTools(c, x) && x.resolved == c.resolved
  {
    hide Good;
    ClockKeeps(c, at);
    OfferKeeps(ClockAdvisory(c, at), body);
    DrainKeeps(OfferEvent(ClockAdvisory(c, at), body));
  }

  lemma FittedKeeps(c: Core, value: string)
    requires Running(c)
    ensures var x := c.(budget := c.budget.Fitted(value));
      && Running(x) && Grows(c, x, 0) && x.budget.textBytes + Length(c.budget.FitText(value)) <= x.budget.maxBytes
      && (!x.budget.Accepts() ==> Running(x.(budget := x.budget.Offered())) && Grows(c, x.(budget := x.budget.Offered()), 0))
  {}

  lemma FitKeeps(c: Core, thinking: bool, value: string)
    requires Running(c)
    ensures var x := FitAndOffer(c, thinking, value); Running(x) && Grows(c, x, 0)
  {
    hide Good;
    FittedKeeps(c, value);
    var fit := c.budget.FitText(value);
    var fitted := c.(budget := c.budget.Fitted(value));
    if fit != "" && fitted.budget.Accepts() { FittedEmit(fitted, thinking, fit); }
  }

  lemma FittedEmit(c: Core, thinking: bool, fit: string)
    requires Running(c) && c.budget.Accepts() && c.budget.textBytes + Length(fit) <= c.budget.maxBytes
    ensures var x := Stamp(c.(budget := c.budget.Offered().Charged(Length(fit))), Delta(thinking, fit)); Running(x) && Grows(c, x, 0)
  {
    EmitKeeps(c, c.(budget := c.budget.Offered().Charged(Length(fit))), Delta(thinking, fit));
  }

  lemma TextKeeps(c: Core, thinking: bool, value: string, at: Clock)
    requires Running(c)
    ensures var x := EmitText(c, thinking, value, at); Running(x) && Grows(c, x, 0)
  {
    hide Good, DrainNotice, ClockAdvisory, FitAndOffer;
    if value != "" {
      ClockKeeps(c, at);
      FitKeeps(ClockAdvisory(c, at), thinking, value);
      DrainKeeps(FitAndOffer(ClockAdvisory(c, at), thinking, value));
    }
  }

  // ----- tool calls

  lemma {:induction false} OpenOne(open: seq<(string, nat)>, t: (string, nat))
    ensures OpenNumbers(open + [t]) == OpenNumbers(open) + {t.1}
  {
    if open == [] {
      assert (open + [t])[1..] == [];
    } else {
      assert (open + [t])[1..] == open[1..] + [t];
      OpenOne(open[1..], t);
    }
  }

  lemma {:induction false} OpenListed(open: seq<(string, nat)>, n: nat)
    ensures n in OpenNumbers(open) <==> exists t :: t in open && t.1 == n
  {
    if open != [] {
      OpenListed(open[1..], n);
      assert open == [open[0]] + open[1..];
    }
  }

  lemma NewNumber(open: seq<(string, nat)>, count: nat, id: string)
    requires OpenWell(open, count) && !IsOpen(open, id)
    ensures OpenWell(open + [(id, count + 1)], count + 1)
    ensures Minted(count + 1) - OpenNumbers(open + [(id, count + 1)]) == Minted(count) - OpenNumbers(open)
  {
    var n := count + 1;
    OpenOne(open, (id, n));
    OpenListed(open, n);
    forall i | 0 <= i < |open| ensures open[i].0 != id && open[i].1 < n { assert open[i] in open; }
  }

  /** The host mints the next number for a provider's tool id. */
  function Minting(c: Core, id: string): Core {
    var n := c.toolCount + 1;
    Stamp(c.(budget := c.budget.Obliged().Offered(), toolCount := n, open := c.open + [(id, n)]), Requested(n))
  }

  lemma RequestScan(log: seq<Event>, seqNo: nat, n: nat)
    requires ToolScan(log).Some? && n !in ToolScan(log).value.0
    ensures var (r, s) := ToolScan(log).value; ToolScan(log + [Event(seqNo, Requested(n))]) == Some((r + {n}, s))
  {
    assert (log + [Event(seqNo, Requested(n))])[..|log|] == log;
  }

  lemma MintingTools(c: Core, id: string)
    requires ToolsWell(c) && !IsOpen(c.open, id) && c.budget.Obliged().Accepts()
    ensures ToolsWell(Minting(c, id))
  {
    hide ToolScan, OpenWell, OpenNumbers;
    RequestScan(c.log, c.seqNo + 1, c.toolCount + 1);
    NewNumber(c.open, c.toolCount, id);
  }

  lemma MintingRest(c: Core, id: string)
    requires Running(c) && c.budget.Obliged().Accepts()
    ensures var x := Minting(c, id); CountsWell(x) && EndsWell(x) && WithinBudget(x) && Paid(x) && Grows(c, x, 0)
  {
    hide ToolsWell;
    Appended(c.log, Event(c.seqNo + 1, Requested(c.toolCount + 1)));
  }

  lemma RequestKeeps(c: Core, id: string)
    requires Running(c) && !IsOpen(c.open, id) && c.budget.Obliged().Accepts()
    ensures Running(Minting(c, id)) && Grows(c, Minting(c, id), 0)
  {
    hide ToolsWell, CountsWell, EndsWell, WithinBudget, Paid;
    MintingTools(c, id);
    MintingRest(c, id);
  }

  lemma RefusedKeeps(c: Core)
    requires Running(c) && !c.budget.Obliged().Accepts()
    ensures var x := c.(budget := c.budget.Obliged().Offered().Discharged()); Running(x) && Grows(c, x, 0)
  {}

  lemma OpenCallKeeps(c: Core, id: string)
    requires Running(c)
    ensures var x := OpenCall(c, id); Running(x) && Grows(c, x, 0)
  {
    hide Good, IsOpen;
    if !IsOpen(c.open, id) {
      if c.budget.Obliged().Accepts() { RequestKeeps(c, id); } else { RefusedKeeps(c); }
    }
  }

  lemma ToolRequestedKeeps(c: Core, id: string, at: Clock)
    requires Running(c)
    ensures var x := ToolRequested(c, id, at); Running(x) && Grows(c, x, 0)
  {
    hide Good, DrainNotice, OpenCall, ClockAdvisory;
    if id != "" {
      ClockKeeps(c, at);
      OpenCallKeeps(ClockAdvisory(c, at), id);
      DrainKeeps(OpenCall(ClockAdvisory(c, at), id));
    }
  }

  lemma OpenTail(open: seq<(string, nat)>, count: nat)
    requires open != [] && OpenWell(open, count)
    ensures OpenWell(open[1..], count) && OpenNumbers(open) == {open[0].1} + OpenNumbers(open[1..])
    ensures forall t :: t in open[1..] ==> t.0 != open[0].0
    ensures open[0].1 !in OpenNumbers(open[1..]) && 1 <= open[0].1 <= count
  {
    var head, tail := open[0], open[1..];
    assert head in open;
    OpenListed(tail, head.1);
    forall t | t in tail ensures t.0 != head.0 && t.1 != head.1 && t in open {
      var i :| 0 <= i < |tail| && tail[i] == t;
      assert open[i + 1] == t;
    }
  }

  lemma {:induction false} WithoutOne(open: seq<(string, nat)>, count: nat, id: string)
    requires OpenWell(open, count) && IsOpen(open, id)
    ensures var rest := Without(open, id);
      && OpenWell(rest, count) && |rest| == |open| - 1 && (forall t :: t in rest ==> t in open)
      && 1 <= NumberFor(open, id) <= count && NumberFor(open, id) in OpenNumbers(open)
      && OpenNumbers(rest) == OpenNumbers(open) - {NumberFor(open, id)}
  {
    hide OpenWell;
    var head, tail := open[0], open[1..];
    OpenTail(open, count);
    assert open == [head] + tail;
    if head.0 == id {
      NoneWithout(tail, id);
    } else {
      assert IsOpen(tail, id);
      WithoutOne(tail, count, id);
      var rest := Without(tail, id);
      OpenCons(head, rest);
      ConsOpenWell(head, tail, rest, count);
    }
  }

  lemma ConsOpenWell(head: (string, nat), tail: seq<(string, nat)>, rest: seq<(string, nat)>, count: nat)
    requires OpenWell([head] + tail, count) && OpenWell(rest, count) && forall t :: t in rest ==> t in tail
    ensures OpenWell([head] + rest, count)
  {
    var all := [head] + rest;
    forall i, j | 0 <= i < j < |all| ensures all[i].0 != all[j].0 && all[i].1 < all[j].1 {
      if i == 0 {
        assert rest[j - 1] in rest;
        var m :| 0 <= m < |tail| && tail[m] == rest[j - 1];
        var whole := [head] + tail;
        assert whole[0] == all[0] && whole[m + 1] == all[j];
      } else {
        assert rest[i - 1] == all[i] && rest[j - 1] == all[j];
      }
    }
    assert head in [head] + tail;
  }

  lemma OpenCons(head: (string, nat), tail: seq<(string, nat)>)
    ensures OpenNumbers([head] + tail) == {head.1} + OpenNumbers(tail)
  {
    assert ([head] + tail)[1..] == tail;
  }

  lemma {:induction false} NoneWithout(open: seq<(string, nat)>, id: string)
    requires forall t :: t in open ==> t.0 != id
    ensures Without(open, id) == open
  {
    if open != [] {
      assert open[0] in open;
      NoneWithout(open[1..], id);
    }
  }

  lemma SettleKeeps(c: Core, x: Core, call: nat, outcome: Outcome)
    requires Running(c) && call in OpenNumbers(c.open) && 1 <= call <= c.toolCount
    requires x == c.(open := x.open) && OpenWell(x.open, c.toolCount) && |x.open| == |c.open| - 1
    requires OpenNumbers(x.open) == OpenNumbers(c.open) - {call} && c.budget.obligations == |c.open|
    ensures Running(Settle(x, call, outcome)) && Grows(c, Settle(x, call, outcome), 0)
  {
    hide ToolsWell, CountsWell, EndsWell, WithinBudget, Paid, OpenWell;
    SettlingTools(c, x, call, outcome);
    SettlingRest(c, x, call, outcome);
  }

  lemma SettlingTools(c: Core, x: Core, call: nat, outcome: Outcome)
    requires ToolsWell(c) && call in OpenNumbers(c.open) && 1 <= call <= c.toolCount
    requires x == c.(open := x.open) && OpenWell(x.open, c.toolCount) && |x.open| == |c.open| - 1
    requires OpenNumbers(x.open) == OpenNumbers(c.open) - {call}
    ensures ToolsWell(Settle(x, call, outcome))
  {
    hide OpenWell, OpenNumbers;
    assert (c.log + [Event(c.seqNo + 1, Settled(call, outcome))])[..|c.log|] == c.log;
    assert Minted(c.toolCount) - OpenNumbers(x.open) == Minted(c.toolCount) - OpenNumbers(c.open) + {call};
  }

  lemma SettlingRest(c: Core, x: Core, call: nat, outcome: Outcome)
    requires Running(c) && x == c.(open := x.open) && c.budget.obligations > 0
    ensures var y := Settle(x, call, outcome); CountsWell(y) && EndsWell(y) && WithinBudget(y) && Paid(y) && Grows(c, y, 0)
  {
    hide ToolsWell;
    Appended(c.log, Event(c.seqNo + 1, Settled(call, outcome)));
  }

  lemma ToolCompletedKeeps(c: Core, id: string, outcome: Outcome, at: Clock)
    requires Running(c)
    ensures var x := ToolCompleted(c, id, outcome, at); Running(x) && Grows(c, x, 0)
  {
    if IsOpen(c.open, id) {
      WithoutOne(c.open, c.toolCount, id);
      SettleKeeps(c, c.(open := Without(c.open, id)), NumberFor(c.open, id), outcome);
    } else {
      OptionalKeeps(c, Noticed(UnknownEvent), at);
    }
  }

  lemma FirstSettles(c: Core, outcome: Outcome)
    requires Running(c) && c.open != []
    ensures var x := Settle(c.(open := c.open[1..]), c.open[0].1, outcome);
      Running(x) && Grows(c, x, 0) && x.open == c.open[1..] && x.resolved == c.resolved
  {
    OpenTail(c.open, c.toolCount);
    assert OpenNumbers(c.open[1..]) == OpenNumbers(c.open) - {c.open[0].1};
    SettleKeeps(c, c.(open := c.open[1..]), c.open[0].1, outcome);
  }

  lemma {:induction false} SettleAllKeeps(c: Core, outcome: Outcome)
    requires Running(c)
    ensures var x := SettleAll(c, outcome); Running(x) && Grows(c, x, 0) && x.open == [] && x.resolved == c.resolved
    decreases |c.open|
  {
    hide Good, Settle;
    if c.open != [] {
      var rest := Settle(c.(open := c.open[1..]), c.open[0].1, outcome);
      FirstSettles(c, outcome);
      SettleAllKeeps(rest, outcome);
    }
  }

  // ----- terminals

  ghost predicate Ended(c: Core) {
    Good(c) && c.started && c.terminal && WellFormed(c.log)
  }

  lemma TerminateKeeps(c: Core, body: Payload)
    requires Running(c) && c.open == [] && IsTerminal(body)
    ensures Ended(Terminate(c, body)) && Grows(c, Terminate(c, body), 0)
  {
    Appended(c.log, Event(c.seqNo + 1, body));
    assert OpenNumbers([]) == {};
  }

  lemma FailKeeps(c: Core, code: ErrorCode, at: Clock)
    requires Running(c)
    ensures var x := Fail(c, code, at); Ended(x) && Grows(c, x, 0)
  {
    hide Good;
    ClockKeeps(c, at);
    SettleAllKeeps(ClockAdvisory(c, at), Error);
    TerminateKeeps(SettleAll(ClockAdvisory(c, at), Error), Failed(code));
  }

  lemma CancelKeeps(c: Core)
    requires Running(c)
    ensures Ended(Cancel(c)) && Grows(c, Cancel(c), 0)
  {
    hide Good;
    SettleAllKeeps(c, Dropped);
    TerminateKeeps(SettleAll(c, Dropped), Cancelled);
  }

  lemma ResolveKeeps(c: Core, model: string)
    requires Running(c) && c.resolved.None?
    ensures Running(ResolveTo(c, model)) && Grows(c, ResolveTo(c, model), 0) && SameTools(c, ResolveTo(c, model))
  {
    EmitKeeps(c, c.(resolved := Some(model), budget := c.budget.Spent()), Resolved(model));
  }

  lemma AttributedKeeps(c: Core)
    requires Running(c)
    ensures var x := Attributed(c); Running(x) && Grows(c, x, 0) && x.open == c.open
  {
    hide Good, ResolveTo;
    if c.resolved.None? && c.attributed.Some? && Representable(c.attributed.value) { ResolveKeeps(c, c.attributed.value); }
  }

  lemma CompleteKeeps(c: Core, at: Clock)
    requires Running(c)
    ensures var x := Complete(c, at); Ended(x) && Grows(c, x, 0)
  {
    hide Good, Terminate, Attributed, SettleAll, ClockAdvisory, Ended;
    var clocked := ClockAdvisory(c, at);
    var settled := SettleAll(clocked, Error);
    ClockKeeps(c, at);
    SettleAllKeeps(clocked, Error);
    AttributedKeeps(settled);
    var ready := Attributed(settled);
    TerminateKeeps(ready, if ready.resolved.None? then Failed(ModelUnresolved) else Completed(None));
  }

  lemma ResolveModelKeeps(c: Core, model: string, at: Clock)
    requires Running(c)
    ensures var x := ResolveModel(c, model, at); (Running(x) || Ended(x)) && Grows(c, x, 0)
  {
    hide Good;
    if !Representable(model) {
      FailKeeps(c, ModelUnresolved, at);
    } else if c.resolved.None? {
      ResolveKeeps(c, model);
    } else if c.resolved.value != model {
      FailKeeps(c, ModelMismatch, at);
    }
  }

  // ----- opening

  lemma NothingYet(c: Core)
    requires Good(c) && !c.started
    ensures c.log == [] && c.open == [] && c.toolCount == 0 && !c.terminal && c.budget.obligations == 0
    ensures !c.skewNoticed && c.resolved.None? && !c.budget.announced && c.budget.events == 0 && c.seqNo == 0 && c.budget.textBytes == 0
  {
    assert c.toolCount > 0 ==> 1 in Minted(c.toolCount);
  }

  lemma StartKeeps(c: Core)
    requires Good(c) && !c.started
    ensures Running(Start(c)) && Grows(c, Start(c), 0)
  {
    hide WithinBudget, CountsWell, EndsWell;
    NothingYet(c);
    FirstEvent(c);
  }

  lemma FirstEvent(c: Core)
    requires c.log == [] && c.open == [] && c.toolCount == 0 && !c.terminal && c.budget.obligations == 0 && !c.started
    requires !c.skewNoticed && c.resolved.None? && !c.budget.announced && c.budget.events == 0 && c.seqNo == 0 && c.budget.textBytes == 0
    ensures Running(Start(c)) && Grows(c, Start(c), 0)
  {
    var x := Start(c);
    Appended([], Event(1, Started));
    assert x.log == [] + [Event(1, Started)];
    assert Minted(0) == {} && OpenNumbers(x.open) == {};
    assert Minted(0) - OpenNumbers(x.open) == {};
  }

  function Opening(maxBytes: nat, maxEvents: nat, attributed: Option<string>): Core {
    Core(Budgets.Fresh(maxBytes, maxEvents), 0, false, false, None, attributed, [], 0, None, false, [])
  }

  lemma OpeningIsGood(maxBytes: nat, maxEvents: nat, attributed: Option<string>)
    ensures Good(Opening(maxBytes, maxEvents, attributed)) && !Opening(maxBytes, maxEvents, attributed).started
  {
    var c := Opening(maxBytes, maxEvents, attributed);
    assert OpenNumbers(c.open) == {} && Minted(0) == {};
    assert Minted(0) - OpenNumbers(c.open) == {};
  }

  // ----- any call on a started sequence, ended or not

  /** Started, and either still running or well-formed at its end. */
  ghost predicate Alive(c: Core) {
    Running(c) || Ended(c)
  }

  /** Nothing is added to a sequence that has ended. */
  ghost predicate Advances(c: Core, x: Core, reports: nat) {
    Alive(x) && Grows(c, x, reports) && (c.terminal ==> x == c)
  }

  lemma AnyNotify(c: Core, notice: Notice, at: Clock)
    requires Alive(c) && notice != ClockSkew && notice != OutputTruncated
    ensures Advances(c, Notify(c, notice, at), 0)
  {
    hide Good, WellFormed, Optional;
    if !c.terminal { OptionalKeeps(c, Noticed(notice), at); }
  }

  lemma AnyCall(c: Core, id: string, failed: bool, at: Clock)
    requires Alive(c)
    ensures Advances(c, ToolRequested(c, id, at), 0)
    ensures Advances(c, ToolCompleted(c, id, if failed then Error else Fine, at), 0)
  {
    hide Good, WellFormed;
    if !c.terminal {
      ToolRequestedKeeps(c, id, at);
      ToolCompletedKeeps(c, id, if failed then Error else Fine, at);
    }
  }

  lemma AnyText(c: Core, thinking: bool, value: string)
    requires Alive(c)
    ensures Advances(c, EmitText(c, thinking, value, Silent), 0)
  {
    hide Good, WellFormed;
    if !c.terminal { TextKeeps(c, thinking, value, Silent); }
  }

  lemma AnyResolve(c: Core, model: string, at: Clock)
    requires Alive(c)
    ensures Advances(c, ResolveModel(c, model, at), 0)
  {
    hide Good, WellFormed;
    if !c.terminal { ResolveModelKeeps(c, model, at); }
  }

  lemma AnyQuota(c: Core, at: Clock)
    requires Alive(c)
    ensures Advances(c, ReportQuota(c, at), 0)
  {
    hide Good, WellFormed, Optional;
    if !c.terminal { OptionalKeeps(c, Quota, at); }
  }

  lemma AnyUsage(c: Core, counts: Counts, faulty: bool, at: Clock)
    requires Alive(c)
    ensures Advances(c, ReportUsage(c, counts, faulty, at), 1) && ReportUsage(c, counts, faulty, at).terminal == c.terminal
  {
    hide Good, WellFormed, Optional;
    if !c.terminal {
      if faulty { OptionalKeeps(c, Noticed(MalformedUsage), at); }
      var noted := if faulty then Notify(c, MalformedUsage, at) else c;
      OptionalKeeps(noted, Usage(counts), at);
    }
  }

  /** A terminal call ends the run, whatever came before. */
  lemma AnyEnd(c: Core, code: ErrorCode, at: Clock)
    requires Alive(c)
    ensures Advances(c, Fail(c, code, at), 0) && Ended(Fail(c, code, at))
    ensures Advances(c, Cancel(c), 0) && Ended(Cancel(c))
    ensures Advances(c, Complete(c, at), 0) && Ended(Complete(c, at))
  {
    hide Good, WellFormed;
    if !c.terminal {
      FailKeeps(c, code, at);
      CancelKeeps(c);
      CompleteKeeps(c, at);
    }
  }
}
