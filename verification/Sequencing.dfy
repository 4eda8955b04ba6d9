/** The event sequence of one run: what the sequencer stamps, and the invariants every run of it keeps. */
module Sequencing {
  import opened Text
  import opened Utf8
  import opened Budgets

  datatype ErrorCode = BackendFailure | TerminalMissing | ModelUnresolved | ModelMismatch | QuotaExhausted
  datatype Outcome = Fine | Error | Dropped
  datatype Notice = UnknownEvent | NonJson | ClockSkew | MalformedUsage | OutputTruncated

  /** Token counts as reported: a field not reported is absent, which is not zero. */
  datatype Field = Input | Output | CacheRead | CacheWrite | Reasoning
  type Counts = map<Field, nat>

  datatype Payload =
    | Started
    | Resolved(model: string)
    | Delta(thinking: bool, text: string)
    | Requested(call: nat)
    | Settled(call: nat, outcome: Outcome)
    | Usage(counts: Counts)
    | Quota
    | Noticed(notice: Notice)
    | Completed(exitCode: Option<int>)
    | Failed(code: ErrorCode)
    | Cancelled

  datatype Event = Event(seqNo: nat, body: Payload)

  /** A provider's clock: not read, unreadable, or a time. */
  datatype Clock = Silent | Unreadable | Reads(at: int)

  predicate IsTerminal(p: Payload) {
    p.Completed? || p.Failed? || p.Cancelled?
  }

  datatype Core = Core(
    budget: Budget, seqNo: nat, started: bool, terminal: bool, resolved: Option<string>, attributed: Option<string>,
    open: seq<(string, nat)>,  // provider tool ids and the host's numbers for them, oldest first
    toolCount: nat, lastAt: Option<int>, skewNoticed: bool,
    log: seq<Event>)           // everything stamped so far

  // ----- stamping

  function Stamp(c: Core, body: Payload): Core {
    c.(seqNo := c.seqNo + 1, log := c.log + [Event(c.seqNo + 1, body)])
  }

  predicate Skewed(c: Core, at: Clock) {
    at.Unreadable? || (at.Reads? && c.lastAt.Some? && at.at < c.lastAt.value)
  }

  function Clocked(c: Core, at: Clock): Core {
    if at.Reads? && (c.lastAt.None? || at.at > c.lastAt.value) then c.(lastAt := Some(at.at)) else c
  }

  /** A clock that goes backwards or cannot be read is noted, once. */
  function ClockAdvisory(c: Core, at: Clock): Core {
    var next := Clocked(c, at);
    if Skewed(c, at) && !c.skewNoticed
    then Stamp(next.(skewNoticed := true, budget := next.budget.Spent()), Noticed(ClockSkew))
    else next
  }

  function DrainNotice(c: Core): Core {
    if c.budget.Announces() then Stamp(c.(budget := c.budget.Claimed()), Noticed(OutputTruncated))
    else c.(budget := c.budget.Claimed())
  }

  function OfferEvent(c: Core, body: Payload): Core {
    var next := c.(budget := c.budget.Offered());
    if c.budget.Accepts() then Stamp(next, body) else next
  }

  function Optional(c: Core, body: Payload, at: Clock): Core {
    DrainNotice(OfferEvent(ClockAdvisory(c, at), body))
  }

  // ----- what a provider's line may call

  function Notify(c: Core, notice: Notice, at: Clock): Core {
    if c.terminal then c else Optional(c, Noticed(notice), at)
  }

  function Start(c: Core): Core {
    if c.terminal then c
    else if c.started then Notify(c, UnknownEvent, Silent)
    else Stamp(c.(started := true, budget := c.budget.Spent()), Started)
  }

  function ResolveTo(c: Core, model: string): Core {
    Stamp(c.(resolved := Some(model), budget := c.budget.Spent()), Resolved(model))
  }

  predicate IsAlphanumeric(c: char) {
    'a' <= c <= 'z' || 'A' <= c <= 'Z' || '0' <= c <= '9'
  }

  predicate Representable(model: string) {
    && 1 <= |model| <= 128 && IsAlphanumeric(model[0])
    && forall i :: 1 <= i < |model| ==> IsAlphanumeric(model[i]) || model[i] in "._:+/-"
  }

  function ResolveModel(c: Core, model: string, at: Clock): Core {
    if c.terminal then c
    else if !Representable(model) then Fail(c, ModelUnresolved, at)
    else match c.resolved
      case None => ResolveTo(c, model)
      case Some(previous) => if previous == model then c else Fail(c, ModelMismatch, at)
  }

  function FitAndOffer(c: Core, thinking: bool, value: string): Core {
    var fit := c.budget.FitText(value);
    var fitted := c.(budget := c.budget.Fitted(value));
    if fit == "" then fitted
    else
      var offered := OfferEvent(fitted, Delta(thinking, fit));
      if fitted.budget.Accepts() then offered.(budget := offered.budget.Charged(Length(fit))) else offered
  }

  function EmitText(c: Core, thinking: bool, value: string, at: Clock): Core {
    if c.terminal || value == "" then c else DrainNotice(FitAndOffer(ClockAdvisory(c, at), thinking, value))
  }

  predicate IsOpen(open: seq<(string, nat)>, id: string) {
    exists t :: t in open && t.0 == id
  }

  function NumberFor(open: seq<(string, nat)>, id: string): nat
    requires IsOpen(open, id)
  {
    if open[0].0 == id then open[0].1 else NumberFor(open[1..], id)
  }

  function Without(open: seq<(string, nat)>, id: string): seq<(string, nat)> {
    if open == [] then [] else if open[0].0 == id then Without(open[1..], id) else [open[0]] + Without(open[1..], id)
  }

  /** The settlement is reserved before the request is offered a slot. */
  function OpenCall(c: Core, id: string): Core {
    var obliged := c.(budget := c.budget.Obliged());
    var offered := obliged.(budget := obliged.budget.Offered());
    if IsOpen(c.open, id) then c
    else if !obliged.budget.Accepts() then offered.(budget := offered.budget.Discharged())
    else
      var n := c.toolCount + 1;
      Stamp(offered.(toolCount := n, open := offered.open + [(id, n)]), Requested(n))
  }

  function ToolRequested(c: Core, id: string, at: Clock): Core {
    if c.terminal || id == "" then c else DrainNotice(OpenCall(ClockAdvisory(c, at), id))
  }

  function Settle(c: Core, call: nat, outcome: Outcome): Core {
    Stamp(c.(budget := c.budget.Discharged().Spent()), Settled(call, outcome))
  }

  function ToolCompleted(c: Core, id: string, outcome: Outcome, at: Clock): Core {
    if c.terminal then c
    else if !IsOpen(c.open, id) then Notify(c, UnknownEvent, at)
    else Settle(c.(open := Without(c.open, id)), NumberFor(c.open, id), outcome)
  }

  function ReportUsage(c: Core, counts: Counts, faulty: bool, at: Clock): Core {
    if c.terminal then c
    else Optional(if faulty then Notify(c, MalformedUsage, at) else c, Usage(counts), at)
  }

  function ReportQuota(c: Core, at: Clock): Core {
    if c.terminal then c else Optional(c, Quota, at)
  }

  // ----- terminals

  function SettleAll(c: Core, outcome: Outcome): Core
    decreases |c.open|
  {
    if c.open == [] then c
    else SettleAll(Settle(c.(open := c.open[1..]), c.open[0].1, outcome), outcome)
  }

  function Terminate(c: Core, body: Payload): Core {
    Stamp(c.(terminal := true, budget := c.budget.Spent()), body)
  }

  function Fail(c: Core, code: ErrorCode, at: Clock): Core {
    if c.terminal then c else Terminate(SettleAll(ClockAdvisory(c, at), Error), Failed(code))
  }

  function Cancel(c: Core): Core {
    if c.terminal then c else Terminate(SettleAll(c, Dropped), Cancelled)
  }

  function Attributed(c: Core): Core {
    if c.resolved.None? && c.attributed.Some? && Representable(c.attributed.value) then ResolveTo(c, c.attributed.value) else c
  }

  function Complete(c: Core, at: Clock): Core {
    if c.terminal then c
    else
      var ready := Attributed(SettleAll(ClockAdvisory(c, at), Error));
      Terminate(ready, if ready.resolved.None? then Failed(ModelUnresolved) else Completed(None))
  }

  // ----- what a finished sequence must satisfy

  /** Replays tool events: the calls requested and settled, or None once one is reused, unpaired or settled twice. */
  ghost function ToolScan(log: seq<Event>): Option<(set<nat>, set<nat>)> {
    if log == [] then Some(({}, {}))
    else
      match ToolScan(log[..|log| - 1])
      case None => None
      case Some(sets) =>
        match log[|log| - 1].body
        case Requested(n) => if n in sets.0 then None else Some((sets.0 + {n}, sets.1))
        case Settled(n, _) => if n !in sets.0 || n in sets.1 then None else Some((sets.0, sets.1 + {n}))
        case _ => Some(sets)
  }

  datatype Tag = TStarted | TResolved | TUsage | TSkew | TTruncated | TTerminal | TOther

  function TagOf(p: Payload): Tag {
    if p.Started? then TStarted else if p.Resolved? then TResolved else if p.Usage? then TUsage
    else if p == Noticed(ClockSkew) then TSkew else if p == Noticed(OutputTruncated) then TTruncated
    else if IsTerminal(p) then TTerminal else TOther
  }

  function CountOf(log: seq<Event>, tag: Tag): nat {
    if log == [] then 0
    else CountOf(log[..|log| - 1], tag) + if TagOf(log[|log| - 1].body) == tag then 1 else 0
  }

  function TextBytes(log: seq<Event>): nat {
    if log == [] then 0
    else
      var body := log[|log| - 1].body;
      TextBytes(log[..|log| - 1]) + if body.Delta? then Length(body.text) else 0
  }

  ghost predicate Numbered(log: seq<Event>) {
    forall i :: 0 <= i < |log| ==> log[i].seqNo == i + 1
  }

  /** What validateEventSequence checks: numbers in step, one terminal and it last, every tool call settled exactly once. */
  ghost predicate WellFormed(log: seq<Event>) {
    && Numbered(log)
    && CountOf(log, TTerminal) == 1 && IsTerminal(log[|log| - 1].body)
    && ToolScan(log).Some? && ToolScan(log).value.0 == ToolScan(log).value.1
  }

  // ----- the invariant

  ghost function Minted(n: nat): (r: set<nat>)
    ensures forall k :: k in r <==> 1 <= k <= n
  {
    if n == 0 then {} else Minted(n - 1) + {n}
  }

  ghost function OpenNumbers(open: seq<(string, nat)>): set<nat> {
    if open == [] then {} else {open[0].1} + OpenNumbers(open[1..])
  }

  ghost predicate OpenWell(open: seq<(string, nat)>, count: nat) {
    && (forall i, j :: 0 <= i < j < |open| ==> open[i].0 != open[j].0 && open[i].1 < open[j].1)
    && (forall t :: t in open ==> 1 <= t.1 <= count) && (count == 0 ==> open == [])
  }

  ghost predicate ToolsWell(c: Core) {
    && OpenWell(c.open, c.toolCount) && c.budget.obligations == |c.open|
    && ToolScan(c.log) == Some((Minted(c.toolCount), Minted(c.toolCount) - OpenNumbers(c.open)))
  }

  function Bit(b: bool): nat {
    if b then 1 else 0
  }

  ghost predicate CountsWell(c: Core) {
    && CountOf(c.log, TStarted) == Bit(c.started) && CountOf(c.log, TResolved) == Bit(c.resolved.Some?)
    && CountOf(c.log, TSkew) == Bit(c.skewNoticed) && CountOf(c.log, TTruncated) == Bit(c.budget.announced)
    && CountOf(c.log, TTerminal) == Bit(c.terminal)
  }

  ghost predicate EndsWell(c: Core) {
    && (c.started ==> c.log != [] && c.log[0].body.Started?) && (!c.started ==> c.log == [])
    && (c.terminal ==> c.log != [] && IsTerminal(c.log[|c.log| - 1].body) && c.open == [])
  }

  /** Two events are charged without being reserved: the clock notice and the model's name. */
  ghost predicate WithinBudget(c: Core) {
    && c.budget.events == c.seqNo == |c.log| && Numbered(c.log)
    && c.seqNo + (if c.terminal then 0 else c.budget.Owed())
       <= Cap(c.budget.maxEvents) + Bit(c.skewNoticed) + Bit(c.resolved.Some?)
    && TextBytes(c.log) == c.budget.textBytes <= c.budget.maxBytes
  }

  // ----- what the events so far have committed the run to

  /** Calls requested and not yet settled. */
  function OpenCalls(log: seq<Event>): int {
    if log == [] then 0
    else
      var body := log[|log| - 1].body;
      OpenCalls(log[..|log| - 1]) + (if body.Requested? then 1 else if body.Settled? then -1 else 0)
  }

  /** The length a log cannot end below: its events, a terminal, and a settlement for each open call. */
  function Committed(log: seq<Event>): int {
    |log| + 1 + OpenCalls(log)
  }

  /** Charged whether or not it fits, and not reserved before. */
  predicate Unreserved(p: Payload) {
    p.Resolved? || p == Noticed(ClockSkew)
  }

  function Cap(maxEvents: nat): nat {
    if maxEvents < 2 then 2 else maxEvents
  }

  /** Every event that was neither unreserved nor owed left the run within the cap. */
  ghost predicate Afforded(log: seq<Event>, cap: nat) {
    log == [] || (Afforded(log[..|log| - 1], cap) && Fitted(log[|log| - 1].body, Committed(log), cap))
  }

  predicate Fitted(p: Payload, committed: int, cap: nat) {
    Unreserved(p) || p.Settled? || IsTerminal(p) || committed <= cap
  }

  ghost predicate Paid(c: Core) {
    OpenCalls(c.log) == c.budget.obligations && Afforded(c.log, Cap(c.budget.maxEvents))
  }

  ghost predicate Good(c: Core) {
    ToolsWell(c) && CountsWell(c) && EndsWell(c) && WithinBudget(c) && Paid(c)
  }
}
