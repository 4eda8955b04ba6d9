/** When an event finds a slot, counted from the events themselves and the calls still open. */
module BudgetSlots {
  import opened Text
  import opened Utf8
  import opened Budgets
  import opened Sequencing
  import opened SequencingKept

  /** Room for so many events more, the terminal and a settlement for each open call besides. */
  ghost predicate Room(c: Core, more: nat) {
    |c.log| + more + |c.open| + 1 <= c.budget.maxEvents
  }

  /** An event that may be refused is stamped, under the next number, while there is room for it and for one notice; the first refusal is final. */
  lemma OfferedIff(c: Core, body: Payload)
    requires Good(c)
    ensures OfferEvent(c, body).log == if !c.budget.capped && Room(c, 2) then c.log + [Event(|c.log| + 1, body)] else c.log
    ensures OfferEvent(c, body).budget.capped <==> c.budget.capped || !Room(c, 2)
    ensures OfferEvent(c, body).budget.pending <==> c.budget.pending || (!c.budget.capped && !Room(c, 2))
  {}

  /** A call is opened while there is room for its request, its settlement and one notice. */
  lemma OpenedIff(c: Core, id: string)
    requires Good(c) && !IsOpen(c.open, id)
    ensures OpenCall(c, id).log == if !c.budget.capped && Room(c, 3) then c.log + [Event(|c.log| + 1, Requested(c.toolCount + 1))] else c.log
    ensures OpenCall(c, id).open == if !c.budget.capped && Room(c, 3) then c.open + [(id, c.toolCount + 1)] else c.open
    ensures OpenCall(c, id).budget.capped <==> c.budget.capped || !Room(c, 3)
  {}

  /** The truncation notice takes the first slot there is when something was refused or cut; without room it is given up. */
  lemma NoticedIff(c: Core)
    requires Good(c)
    ensures DrainNotice(c).log
      == if c.budget.pending && !c.budget.announced && Room(c, 1) then c.log + [Event(|c.log| + 1, Noticed(OutputTruncated))] else c.log
    ensures !DrainNotice(c).budget.pending
  {}

  /** A text is cut, and from then on every other, exactly when it does not fit the bytes that are left. */
  lemma CutIff(c: Core, value: string)
    requires Good(c) && value != ""
    ensures c.budget.Fitted(value).truncated <==> c.budget.truncated || TextBytes(c.log) + Length(value) > c.budget.maxBytes
    ensures c.budget.Fitted(value).pending <==> c.budget.pending || (!c.budget.truncated && TextBytes(c.log) + Length(value) > c.budget.maxBytes)
  {
    assert Length(value) > 0;
  }

  /** The clock is noted the first time a provider's clock goes back or cannot be read. */
  lemma ClockNotedIff(c: Core, at: Clock)
    requires Good(c)
    ensures ClockAdvisory(c, at).log
      == if !c.skewNoticed && (at == Unreadable || (at.Reads? && c.lastAt.Some? && at.at < c.lastAt.value))
         then c.log + [Event(|c.log| + 1, Noticed(ClockSkew))] else c.log
    ensures ClockAdvisory(c, at).lastAt == if at.Reads? && (c.lastAt.None? || c.lastAt.value < at.at) then Some(at.at) else c.lastAt
  {}
}
