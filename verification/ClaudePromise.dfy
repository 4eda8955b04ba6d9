/** What parse promises its consumer, and which lines take it away: opening first, exactly one terminal and it last, the limits. */
module ClaudePromise {
  import opened Text
  import opened Budgets
  import opened Sequencing
  import opened SequencingKept
  import opened ClaudeStream
  import opened ClaudeRun

  /** Exactly one terminal, and nothing after it. */
  ghost predicate EndsOnce(events: seq<Event>) {
    CountOf(events, TTerminal) == 1 && IsTerminal(events[|events| - 1].body)
  }

  // ----- counting over parts

  lemma {:induction false} CountAppend(a: seq<Event>, b: seq<Event>, tag: Tag)
    ensures CountOf(a + b, tag) == CountOf(a, tag) + CountOf(b, tag)
  {
    if b == [] {
      assert a + b == a;
    } else {
      CountAppend(a, b[..|b| - 1], tag);
      assert (a + b)[..|a + b| - 1] == a + b[..|b| - 1];
    }
  }

  lemma {:induction false} BytesAppend(a: seq<Event>, b: seq<Event>)
    ensures TextBytes(a + b) == TextBytes(a) + TextBytes(b)
  {
    if b == [] {
      assert a + b == a;
    } else {
      BytesAppend(a, b[..|b| - 1]);
      assert (a + b)[..|a + b| - 1] == a + b[..|b| - 1];
    }
  }

  /** Leaving out the middle of a bounded log leaves a bounded one. */
  lemma BoundedWithout(a: seq<Event>, b: seq<Event>, c: seq<Event>, maxBytes: nat, maxEvents: nat)
    requires Bounded(a + b + c, maxBytes, maxEvents)
    ensures Bounded(a + c, maxBytes, maxEvents)
  {
    forall tag ensures CountOf(a + c, tag) <= CountOf(a + b + c, tag) {
      CountAppend(a, b, tag);
      CountAppend(a + b, c, tag);
      CountAppend(a, c, tag);
    }
    BytesAppend(a, b);
    BytesAppend(a + b, c);
    BytesAppend(a, c);
  }

  // ----- the delivered events, as parts of everything that was stamped

  /** The run's sequence at its end: where the stream left it, or after the host's own ending. */
  function Final(start: Pair, lines: seq<Line>, stop: Stop): Core {
    var r := ReadAll(start, lines, []);
    if Settles(r.kept) then r.p.c else HostEnding(r.p, r.threw, stop)
  }

  ghost predicate Delivers(start: Pair, lines: seq<Line>, stop: Stop, exit: Option<int>, x: Core, kept: seq<Event>, tail: seq<Event>) {
    && Ended(x) && SameLimits(start.c, x) && CountOf(x.log, TUsage) <= 1
    && x.log == kept + Lost(start, lines) + tail
    && (if Settles(kept) then Lost(start, lines) == [] && tail == [] && Parse(start, lines, stop, exit) == Delivered(x.log, exit)
        else Parse(start, lines, stop, exit) == kept + tail)
    && (Settles(Lost(start, lines)) ==> tail == []) && CountOf(kept + Lost(start, lines), TTerminal) <= 1
  }

  lemma Parted(start: Pair, lines: seq<Line>, stop: Stop, exit: Option<int>) returns (kept: seq<Event>, tail: seq<Event>)
    requires Ready(start) && start.c.log == []
    ensures Delivers(start, lines, stop, exit, Final(start, lines, stop), kept, tail)
    ensures kept == ReadAll(start, lines, []).kept
  {
    hide Ready, ReadWell, HostEnding, ReadAll, Parse, Lost, Delivers, Since, Final, Settles;
    ReadKeeps(start, lines);
    var r := ReadAll(start, lines, []);
    kept, tail := r.kept, [];
    if Settles(kept) {
      PartedSettled(start, lines, stop, exit, r);
    } else {
      tail := Since(r.p.c, HostEnding(r.p, r.threw, stop));
      PartedEnded(start, lines, stop, exit, r);
    }
  }

  lemma LostIs(start: Pair, lines: seq<Line>, r: Read)
    requires r == ReadAll(start, lines, []) && ReadWell(start, r)
    ensures r.p.c.log == r.kept + Lost(start, lines) && CountOf(r.p.c.log, TTerminal) <= 1 && Good(r.p.c)
    ensures Settles(r.kept) ==> Lost(start, lines) == [] && r.p.c.terminal && r.p.c.log == r.kept
  {
    hide ReadAll, Settles;
    StampedCounts(r.p);
    ReadyGood(r.p);
  }

  lemma PartedSettled(start: Pair, lines: seq<Line>, stop: Stop, exit: Option<int>, r: Read)
    requires r == ReadAll(start, lines, []) && ReadWell(start, r) && Settles(r.kept)
    ensures Delivers(start, lines, stop, exit, Final(start, lines, stop), r.kept, [])
  {
    hide ReadAll, Steady, Ended, Lost, Good, Delivered, Settles;
    LostIs(start, lines, r);
    SettledRun(r.p);
    NothingSettles();
  }

  lemma NothingSettles()
    ensures !Settles([])
  {}

  lemma PartedEnded(start: Pair, lines: seq<Line>, stop: Stop, exit: Option<int>, r: Read)
    requires r == ReadAll(start, lines, []) && ReadWell(start, r) && !Settles(r.kept)
    ensures Delivers(start, lines, stop, exit, Final(start, lines, stop), r.kept, Since(r.p.c, HostEnding(r.p, r.threw, stop)))
  {
    hide *;
    WellRead(start, r);
    LostIs(start, lines, r);
    HostEnds(r.p, r.threw, stop);
    var x := HostEnding(r.p, r.threw, stop);
    SinceIs(r.p.c, x);
    LimitsOn(start.c, r.p.c, x);
    if Settles(Lost(start, lines)) { LostSettles(r.p.c, r.kept); }
    ParsedSo(start, lines, stop, exit, r);
    DeliversIf(start, lines, stop, exit, x, r.kept, Since(r.p.c, x));
  }

  lemma WellRead(start: Pair, r: Read)
    requires ReadWell(start, r)
    ensures Steady(r.p) && SameLimits(start.c, r.p.c) && r.kept <= r.p.c.log
  {
    hide Steady, SameLimits;
  }

  lemma SinceIs(c: Core, x: Core)
    requires c.log <= x.log
    ensures x.log == c.log + Since(c, x) && (x == c ==> Since(c, x) == [])
  {}

  lemma LimitsOn(c: Core, x: Core, y: Core)
    requires SameLimits(c, x) && SameLimits(x, y)
    ensures SameLimits(c, y)
  {}

  lemma ParsedSo(start: Pair, lines: seq<Line>, stop: Stop, exit: Option<int>, r: Read)
    requires r == ReadAll(start, lines, []) && !Settles(r.kept)
    ensures Final(start, lines, stop) == HostEnding(r.p, r.threw, stop)
    ensures Parse(start, lines, stop, exit) == r.kept + Since(r.p.c, HostEnding(r.p, r.threw, stop))
  {
    hide ReadAll, HostEnding, Settles, Since;
  }

  lemma DeliversIf(start: Pair, lines: seq<Line>, stop: Stop, exit: Option<int>, x: Core, kept: seq<Event>, tail: seq<Event>)
    requires Ended(x) && SameLimits(start.c, x) && CountOf(x.log, TUsage) <= 1 && x.log == kept + Lost(start, lines) + tail
    requires !Settles(kept) && Parse(start, lines, stop, exit) == kept + tail
    requires (Settles(Lost(start, lines)) ==> tail == []) && CountOf(kept + Lost(start, lines), TTerminal) <= 1
    ensures Delivers(start, lines, stop, exit, x, kept, tail)
  {
    hide Ended, SameLimits, CountOf, Lost, Settles, Parse;
  }

  lemma StampedCounts(p: Pair)
    requires Steady(p)
    ensures CountOf(p.c.log, TTerminal) <= 1
  {}

  lemma LostSettles(c: Core, kept: seq<Event>)
    requires Good(c) && kept <= c.log && Settles(c.log[|kept|..])
    ensures c.terminal
  {
    var e :| e in c.log[|kept|..] && IsTerminal(e.body);
    assert e in c.log;
    AliveSettles(c);
  }

  // ----- one terminal, one opening, and the limits

  lemma {:induction false} CountNone(events: seq<Event>, tag: Tag)
    ensures CountOf(events, tag) == 0 <==> forall e :: e in events ==> TagOf(e.body) != tag
  {
    if events != [] {
      var n := |events| - 1;
      CountNone(events[..n], tag);
      assert events == events[..n] + [events[n]];
    }
  }

  lemma SettlesIff(events: seq<Event>)
    ensures Settles(events) <==> CountOf(events, TTerminal) != 0
  {
    CountNone(events, TTerminal);
    forall e: Event ensures IsTerminal(e.body) <==> TagOf(e.body) == TTerminal {}
  }

  lemma EndedLog(x: Core)
    requires Ended(x)
    ensures EndsOnce(x.log) && OpensOnce(x.log) && x.log != []
  {}

  /** The consumer sees exactly one terminal, and it last, exactly when no terminal was among what was lost. */
  lemma EndsOnceIff(start: Pair, lines: seq<Line>, stop: Stop, exit: Option<int>)
    requires Ready(start) && start.c.log == []
    ensures EndsOnce(Parse(start, lines, stop, exit)) <==> !Settles(Lost(start, lines))
  {
    hide Ready, Ended, Parse, Lost, Settles, CountOf, WellFormed, Final, SameLimits, ReadAll;
    var kept, tail := Parted(start, lines, stop, exit);
    var x, lost := Final(start, lines, stop), Lost(start, lines);
    EndedLog(x);
    SettlesIff(kept);
    SettlesIff(lost);
    CountAppend(kept, lost, TTerminal);
    CountAppend(kept + lost, tail, TTerminal);
    CountAppend(kept, tail, TTerminal);
    if Settles(kept) {
      WellFormedEnds(x, exit);
    } else if !Settles(lost) {
      NoneInNothing();
      assert tail != [];
    }
  }

  lemma NoneInNothing()
    ensures CountOf([], TTerminal) == 0 && CountOf([], TStarted) == 0 && !Settles([])
  {}

  lemma WellFormedEnds(x: Core, exit: Option<int>)
    requires Ended(x)
    ensures EndsOnce(Delivered(x.log, exit)) && OpensOnce(Delivered(x.log, exit))
    ensures CountOf([], TTerminal) == 0 && CountOf([], TStarted) == 0
  {
    hide Good, ToolScan;
    EndedLog(x);
    MeasuredIsTerminal(x.log, exit);
  }

  ghost predicate Starts(events: seq<Event>) {
    exists e :: e in events && e.body.Started?
  }

  lemma StartsIff(events: seq<Event>)
    ensures Starts(events) <==> CountOf(events, TStarted) != 0
  {
    CountNone(events, TStarted);
    forall e: Event ensures e.body.Started? <==> TagOf(e.body) == TStarted {}
  }

  /** The consumer sees run.started first and once, exactly when it was not among what was lost. */
  lemma OpensOnceIff(start: Pair, lines: seq<Line>, stop: Stop, exit: Option<int>)
    requires Ready(start) && start.c.log == []
    ensures OpensOnce(Parse(start, lines, stop, exit)) <==> !Starts(Lost(start, lines))
  {
    hide Ready, Ended, Parse, Lost, Settles, CountOf, WellFormed, Final, SameLimits, ReadAll, Starts;
    var kept, tail := Parted(start, lines, stop, exit);
    var x, lost := Final(start, lines, stop), Lost(start, lines);
    EndedLog(x);
    StartsIff(kept);
    StartsIff(lost);
    StartsIff(tail);
    FirstStarts(kept);
    FirstStarts(lost);
    CountAppend(kept, lost, TStarted);
    CountAppend(kept + lost, tail, TStarted);
    CountAppend(kept, tail, TStarted);
    if Settles(kept) { WellFormedEnds(x, exit); } else { Kept0(kept, lost, tail); }
  }

  lemma FirstStarts(events: seq<Event>)
    ensures events != [] && TagOf(events[0].body) == TStarted ==> Starts(events)
  {
    if events != [] && TagOf(events[0].body) == TStarted { assert events[0] in events; }
  }

  lemma Kept0(kept: seq<Event>, lost: seq<Event>, tail: seq<Event>)
    ensures kept != [] ==> (kept + lost + tail)[0] == kept[0] && (kept + tail)[0] == kept[0]
    ensures kept == [] && lost != [] ==> (kept + lost + tail)[0] == lost[0]
    ensures kept == [] && lost == [] ==> kept + lost + tail == kept + tail
    ensures CountOf([], TStarted) == 0
  {}

  /** Whatever throws: the event cap is passed by two at most, text keeps to its bytes, and usage, the model, the clock
      notice and the truncation notice are told at most once each. */
  lemma AlwaysBounded(maxBytes: nat, maxEvents: nat, lines: seq<Line>, stop: Stop, exit: Option<int>)
    ensures Bounded(Parse(NewRun(maxBytes, maxEvents), lines, stop, exit), maxBytes, maxEvents)
  {
    hide Ready, Ended, Parse, Lost, Settles, CountOf, WellFormed, Final, ReadAll, Bounded, NewRun, Good, Delivered;
    var start := NewRun(maxBytes, maxEvents);
    NewRunIsReady(maxBytes, maxEvents);
    NewLimits(maxBytes, maxEvents);
    var kept, tail := Parted(start, lines, stop, exit);
    var x, lost := Final(start, lines, stop), Lost(start, lines);
    EndedBounds(x);
    if Settles(kept) { MeasuredIsBounded(x.log, exit, maxBytes, maxEvents); } else { BoundedWithout(kept, lost, tail, maxBytes, maxEvents); }
  }

  lemma NewLimits(maxBytes: nat, maxEvents: nat)
    ensures NewRun(maxBytes, maxEvents).c.budget.maxBytes == maxBytes && NewRun(maxBytes, maxEvents).c.budget.maxEvents == maxEvents
  {}

  lemma MeasuredIsBounded(log: seq<Event>, exit: Option<int>, maxBytes: nat, maxEvents: nat)
    requires WellFormed(log) && Bounded(log, maxBytes, maxEvents)
    ensures Bounded(Delivered(log, exit), maxBytes, maxEvents)
  {
    hide WellFormed, Delivered;
    MeasuredIsTerminal(log, exit);
  }
}
