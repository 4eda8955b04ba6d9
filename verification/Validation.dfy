/** validateEventSequence: the independent checker of a recorded run, and why it is exact. */
module Validation {
  import opened Text
  import opened Sequencing

  datatype Violation =
    | SeqNotContiguous | TerminalMissing | TerminalDuplicated | TerminalNotLast
    | ToolIdReused | ToolSettledWithoutRequest | ToolSettledTwice | ToolUnsettledAtTerminal

  lemma CountStep(events: seq<Event>, i: nat)
    requires i < |events|
    ensures CountOf(events[..i + 1], TTerminal) == CountOf(events[..i], TTerminal) + Bit(IsTerminal(events[i].body))
    ensures ToolScan(events[..i + 1]) == (
      match ToolScan(events[..i])
      case None => None
      case Some(sets) =>
        match events[i].body
        case Requested(n) => if n in sets.0 then None else Some((sets.0 + {n}, sets.1))
        case Settled(n, _) => if n !in sets.0 || n in sets.1 then None else Some((sets.0, sets.1 + {n}))
        case _ => Some(sets))
  {
    assert events[..i + 1][..i] == events[..i];
  }

  method CheckNumbers(events: seq<Event>) returns (violations: seq<Violation>)
    ensures violations == [] <==> Numbered(events)
  {
    violations := [];
    for i := 0 to |events|
      invariant violations == [] <==> forall k :: 0 <= k < i ==> events[k].seqNo == k + 1
    {
      if events[i].seqNo != i + 1 { violations := violations + [SeqNotContiguous]; }
    }
  }

  ghost predicate FirstTerminal(events: seq<Event>, i: nat, first: Option<nat>) {
    && i <= |events|
    && (first.None? ==> forall k :: 0 <= k < i ==> !IsTerminal(events[k].body))
    && (first.Some? ==> first.value < i && IsTerminal(events[first.value].body)
                        && forall k :: 0 <= k < first.value ==> !IsTerminal(events[k].body))
  }

  method CheckTerminals(events: seq<Event>) returns (violations: seq<Violation>, first: Option<nat>)
    ensures FirstTerminal(events, |events|, first)
    ensures violations == [] <==> CountOf(events, TTerminal) == 1 && IsTerminal(events[|events| - 1].body)
  {
    first := None;
    var count := 0;
    for i := 0 to |events|
      invariant FirstTerminal(events, i, first) && count == CountOf(events[..i], TTerminal)
      invariant count == 0 <==> first.None?
      invariant count == 1 ==> forall k :: first.value < k < i ==> !IsTerminal(events[k].body)
    {
      CountStep(events, i);
      if IsTerminal(events[i].body) {
        count := count + 1;
        if first.None? { first := Some(i); }
      }
    }
    assert events[..|events|] == events;
    violations := [];
    if count == 0 { violations := [Violation.TerminalMissing]; }
    if count > 1 { violations := [TerminalDuplicated]; }
    if first.Some? && first.value != |events| - 1 { violations := violations + [TerminalNotLast]; }
  }

  method CheckTools(events: seq<Event>) returns (violations: seq<Violation>, requested: set<nat>, settled: set<nat>)
    ensures violations == [] ==> ToolScan(events) == Some((requested, settled))
    ensures violations != [] ==> ToolScan(events).None?
  {
    violations, requested, settled := [], {}, {};
    for i := 0 to |events|
      invariant violations == [] ==> ToolScan(events[..i]) == Some((requested, settled))
      invariant violations != [] ==> ToolScan(events[..i]).None?
    {
      CountStep(events, i);
      match events[i].body
      case Requested(n) =>
        if n in requested { violations := violations + [ToolIdReused]; }
        requested := requested + {n};
      case Settled(n, _) =>
        if n !in requested {
          violations := violations + [ToolSettledWithoutRequest];
        } else if n in settled {
          violations := violations + [ToolSettledTwice];
        }
        settled := settled + {n};
      case _ =>
    }
    assert events[..|events|] == events;
  }

  lemma {:induction false} SettledAreRequested(log: seq<Event>)
    ensures ToolScan(log).Some? ==> ToolScan(log).value.1 <= ToolScan(log).value.0
  {
    if log != [] { SettledAreRequested(log[..|log| - 1]); }
  }

  /** No violation is reported exactly when the run is well-formed. */
  method ValidateEventSequence(events: seq<Event>) returns (violations: seq<Violation>)
    ensures violations == [] <==> WellFormed(events)
  {
    var numbers := CheckNumbers(events);
    var terminals, first := CheckTerminals(events);
    var tools, requested, settled := CheckTools(events);
    violations := numbers + terminals + tools;
    SettledAreRequested(events);
    if first.Some? && !(requested <= settled) {
      violations := violations + [ToolUnsettledAtTerminal];
    }
  }
}
