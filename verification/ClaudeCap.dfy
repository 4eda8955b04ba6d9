/** When a run passes its event cap: which charges are spent without a slot. */
module ClaudeCap {
  import opened Text
  import opened Budgets
  import opened Sequencing
  import opened SequencingKept
  import opened ClaudeStream
  import opened ClaudeRun
  import opened ClaudePromise

  /** Event i named the model or noted the clock when what was already committed filled the cap. */
  predicate Overdrawn(log: seq<Event>, cap: nat, i: int) {
    0 <= i < |log| && Unreserved(log[i].body) && Committed(log[..i]) >= cap
  }

  ghost predicate SomeOverdrawn(log: seq<Event>, cap: nat) {
    exists i :: Overdrawn(log, cap, i)
  }

  lemma CommittedStep(log: seq<Event>)
    requires log != []
    ensures var n := |log| - 1;
      Committed(log) == Committed(log[..n]) + (if log[n].body.Requested? then 2 else if log[n].body.Settled? then 0 else 1)
  {}

  /** What is committed never falls. */
  lemma {:induction false} CommittedRises(log: seq<Event>, i: nat)
    requires i <= |log|
    ensures Committed(log[..i]) <= Committed(log)
    decreases |log|
  {
    hide Committed;
    if i == |log| {
      assert log[..i] == log;
    } else {
      var n := |log| - 1;
      CommittedStep(log);
      CommittedRises(log[..n], i);
      assert log[..n][..i] == log[..i];
    }
  }

  lemma OverdrawnEarlier(log: seq<Event>, cap: nat, i: int)
    requires log != [] && Overdrawn(log[..|log| - 1], cap, i)
    ensures Overdrawn(log, cap, i)
  {
    assert log[..|log| - 1][..i] == log[..i];
  }

  /** Without an overdraft the run never commits past its cap. */
  lemma {:induction false} NeverPastWithout(log: seq<Event>, cap: nat)
    requires cap >= 2 && Afforded(log, cap) && !SomeOverdrawn(log, cap) && CountOf(log, TTerminal) == 0
    ensures Committed(log) <= cap
  {
    hide Committed, Overdrawn;
    if log == [] {
      NothingCommitted();
    } else {
      var n := |log| - 1;
      CommittedStep(log);
      if i :| Overdrawn(log[..n], cap, i) { OverdrawnEarlier(log, cap, i); }
      NeverPastWithout(log[..n], cap);
      LastFits(log, cap);
    }
  }

  lemma NothingCommitted()
    ensures Committed([]) == 1
  {}

  lemma LastFits(log: seq<Event>, cap: nat)
    requires log != [] && Afforded(log, cap) && !SomeOverdrawn(log, cap) && CountOf(log, TTerminal) == 0 && Committed(log[..|log| - 1]) <= cap
    ensures Committed(log) <= cap
  {
    var n := |log| - 1;
    CommittedStep(log);
    assert !Overdrawn(log, cap, n);
  }

  /** A finished log is past its cap exactly when it was overdrawn on the way. */
  lemma PastCapIff(log: seq<Event>, cap: nat)
    requires cap >= 2 && Afforded(log, cap) && OpenCalls(log) == 0
    requires log != [] && IsTerminal(log[|log| - 1].body) && CountOf(log, TTerminal) == 1
    ensures |log| > cap <==> SomeOverdrawn(log, cap)
  {
    var n := |log| - 1;
    var open := log[..n];
    assert Committed(open) == |log|;
    if i :| Overdrawn(log, cap, i) {
      assert open[..i] == log[..i] && open[..i + 1] == log[..i + 1] && log[..i + 1][..i] == log[..i];
      CommittedStep(log[..i + 1]);
      CommittedRises(open, i + 1);
    } else {
      forall i ensures !Overdrawn(open, cap, i) { if Overdrawn(open, cap, i) { OverdrawnEarlier(log, cap, i); } }
      NeverPastWithout(open, cap);
    }
  }

  lemma EndedIsPaid(x: Core)
    requires Ended(x)
    ensures Afforded(x.log, Cap(x.budget.maxEvents)) && OpenCalls(x.log) == 0 && x.log != []
    ensures IsTerminal(x.log[|x.log| - 1].body) && CountOf(x.log, TTerminal) == 1 && |x.log| >= 2
  {
    assert x.log[0].body.Started?;
  }

  /**
   For a cap of two or more, a run stamps more events than its cap exactly when it names its model, or notes its
   clock, while its events, its terminal and its open calls' settlements already fill the cap. A smaller cap is
   always passed.
  */
  lemma CapIsPassedIff(maxBytes: nat, maxEvents: nat, lines: seq<Line>, stop: Stop, exit: Option<int>)
    ensures var log := Final(NewRun(maxBytes, maxEvents), lines, stop).log;
      |log| > maxEvents <==> maxEvents < 2 || SomeOverdrawn(log, maxEvents)
    ensures Lost(NewRun(maxBytes, maxEvents), lines) == [] ==>
      |Parse(NewRun(maxBytes, maxEvents), lines, stop, exit)| == |Final(NewRun(maxBytes, maxEvents), lines, stop).log|
  {
    hide Ready, Ended, Parse, Lost, Settles, CountOf, Final, ReadAll, NewRun, Afforded, SomeOverdrawn, WellFormed;
    var start := NewRun(maxBytes, maxEvents);
    NewRunIsReady(maxBytes, maxEvents);
    NewLimits(maxBytes, maxEvents);
    var kept, tail := Parted(start, lines, stop, exit);
    var x := Final(start, lines, stop);
    EndedIsPaid(x);
    if maxEvents >= 2 { PastCapIff(x.log, maxEvents); }
    if Settles(kept) { SameLength(x.log, exit); }
  }

  lemma SameLength(log: seq<Event>, exit: Option<int>)
    ensures |Delivered(log, exit)| == |log|
  {}

  /**
   The cap can be passed, by exactly what Bounded allows: naming the model and noting a broken clock
   are charged but not reserved, so two more events than a cap of two are delivered here.
  */
  lemma CapIsPassed(maxBytes: nat, model: string, stop: Stop, exit: Option<int>)
    requires Representable(model)
    ensures |Parse(NewRun(maxBytes, 2), [SystemInit(model), Result(Unreadable, None, false, false)], stop, exit)| == 2 + 2
  {
    var start := NewRun(maxBytes, 2);
    var lines := [SystemInit(model), Result(Unreadable, None, false, false)];
    var one := Decode(start, lines[0]);
    assert one.finished && one.p.c.log == [Event(1, Started), Event(2, Resolved(model))];
    assert lines[1..] == [lines[1]];
    var two := Decode(one.p, lines[1]);
    var terminal := Event(4, Completed(None));
    assert two.p.c.log == one.p.c.log + [Event(3, Noticed(ClockSkew))] + [terminal];
    var kept := [] + Since(start.c, one.p.c) + Since(one.p.c, two.p.c);
    assert ReadAll(one.p, lines[1..], [] + Since(start.c, one.p.c)) == Read(two.p, false, kept);
    assert terminal == kept[3] && terminal in kept;
  }
}
