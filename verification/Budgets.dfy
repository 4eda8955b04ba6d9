/** What a run may emit: a byte budget for text and an event budget with the mandatory events reserved out of it. */
module Budgets {
  import opened Utf8

  datatype Budget = Budget(
    maxBytes: nat, maxEvents: nat, textBytes: nat, events: nat,
    obligations: nat,   // settlements owed by tool calls already emitted
    truncated: bool, capped: bool,
    pending: bool,      // a truncation notice waits to be claimed
    announced: bool)
  {
    /** One terminal, plus one settlement per tool call left open. */
    function Owed(): nat {
      1 + obligations
    }

    /** One more optional event, with a slot held back for the truncation notice. */
    predicate Fits() {
      events + Owed() + 2 <= maxEvents
    }

    function Offered(): Budget {
      if capped then this
      else if Fits() then this.(events := events + 1)
      else this.(capped := true, pending := true)
    }

    predicate Accepts() {
      !capped && Fits()
    }

    function Spent(): Budget {
      this.(events := events + 1)
    }

    function Obliged(): Budget {
      this.(obligations := obligations + 1)
    }

    function Discharged(): Budget {
      this.(obligations := if obligations > 0 then obligations - 1 else 0)
    }

    /** What of a text fits the bytes that are left; once cut, nothing more does. */
    function FitText(value: string): string {
      if truncated || maxBytes <= textBytes then "" else Fitting(value, maxBytes - textBytes)
    }

    predicate Cuts(value: string) {
      truncated || maxBytes <= textBytes || Length(value) > maxBytes - textBytes
    }

    function Fitted(value: string): Budget {
      if !truncated && Cuts(value) then this.(truncated := true, pending := true) else this
    }

    function Charged(bytes: nat): Budget {
      this.(textBytes := textBytes + bytes)
    }

    predicate Announces() {
      pending && !announced && events + Owed() + 1 <= maxEvents
    }

    function Claimed(): Budget {
      if Announces() then this.(pending := false, announced := true, events := events + 1) else this.(pending := false)
    }
  }

  function Fresh(maxBytes: nat, maxEvents: nat): Budget {
    Budget(maxBytes, maxEvents, 0, 0, 0, false, false, false, false)
  }
}
