# Closures, boards, statistics and streams

A Dafny model of the parts of the workflow host and its dashboard whose guarantees span several functions:

- **Closing tickets** (`PlanScan` … `ClosureAsks`). The plan scanner, the writer that splices status values into
  plans and tickets, and the independent check of a before and an after tree. The check is exact and its report
  rebuilds the after tree, the writer always satisfies it, agreement between tickets and plan survives it, and what
  each ticket asks never moves. The scanner is modelled concretely, so that scanning again after writing finds the
  same tokens is a theorem (`Holes`, `Rescan`, `Rewrite`): the text is seen as cells, each a character with the value
  before it, and the scan of the text is the scan of the text without its values, lifted through the cells. `PlanMeans`,
  `ClosureProposed`, `ClosureOutcome` and `ClosureRules` say what scanner, proposal, writer and check do in the words of
  the plan itself: its headings, rows, values and tickets.
- **What was asked** (`AskedRows`, `StableJson`, `AskCompare`, `AskFields`, `Handoffs`, `HandoffRules`). What a checklist row
  is, the stable text of a value, the comparison of asks and what it tells, and the removal of Handoff sections.
- **Decks, clusters, the board and the graph** (`Chains`, `SessionStacks`, `Clusters`, `Board`, `DeckOrder`,
  `CanvasGraph`, `CanvasBuild`, `CanvasBuilt`). Two different union-finds compute connected components, and the board
  and the graph are determined by the runs whatever order they arrive in.
- **Route statistics** (`Wilson`, `RouteFrontier`, `RouteRows`, `RouteVerdicts`, `RouteAnswers`, `RouteAdvice`). The score
  interval over the reals, the Pareto line, the verdicts and the recommendation, local or led by priors.
- **Layout** (`ReplayOrbits`, `ReplayLayout`, `ReplaySlots`, `ReplaySeeds`, `ReplayDrawing`, `Timeline`,
  `TimelineRules`, `ChartLabels`, `LabelRule`, `TickRule`). Replay orbits from the first placing to the last step, timeline
  blocks, chart labels and ticks.
- **The metrics route** (`Percent`, `MetricsRoute`, `MetricsState`, `MetricsRoundTrip`). Printer and parser.
- **The Claude stream** (`Utf8`, `Utf8Reader`, `LineFraming`, `Budgets`, `BudgetSlots`, `Sequencing`, `SequencingKept`,
  `ClaudeStream`, `ClaudeRun`, `ClaudePromise`, `ClaudeCourse`, `ClaudeEnding`, `ClaudePlain`, `ClaudeTexts`, `ClaudeCap`,
  `Validation`, `EventSequencers`, `ClaudeAdapter`). Bytes to lines, the sequencer as a state machine, the decoder, and the
  whole run over any lines, any break and any abort: how it ends, and what a consumer hears.

`Text`, `Order`, `Sorting`, `Reals` and `Splice` hold what they share. Where the source updates fields, arrays or maps
in loops the model does too, and each such method is proved against a function whose properties are the lemmas below.

## Conditions, and what fails without them

- **Status values without `<`** (`Rewrite.Readable`). The scanner can read a heading inside a value;
  `ValueReadsAsTask.WritingLosesTheTask` shows the text where writing a value loses a task. The comments in
  `core/src/registry/plan-source.ts` promise one token list for parsing and closing and do not mention this.
- **No two tickets of one proposal for one plan task** (`ClosureRows.DistinctNumbers`). `T01` and `W01` write each row
  twice at the first text's positions. `ClosureTwice.TwiceIff` says when one token survives that: iff the first value
  written is as long as the old one. `TwoTickets.TwoTicketsSpoil` is a plan, a proposal and the refused tree.
- **Rebuilding from the report**: a change names a milestone, a task, a row and the old value, not a span. The report
  determines the after text exactly when no two tokens of the plan agree in all four (`ClosureRebuilt.AmbiguousIff`).
- **Agreement after a closure** (`ClosureAgreement.AgreementKept`): the plan's own path is not the path of one of its
  tickets, and no ticket file outside the proposal carries the number of one inside it (`ClosureAgreement.OthersApart`).
- **Asks: values without `<`, `]` or a line break** (`AskedSame.CalmPlan`), because rows are found by searching for
  tags and line ends. `NewlineInValue.WritingChangesTheRow` is a task whose row changes.
- **Fences**: as the code reads them. Any line of three or more backticks opens one, whatever follows it, where
  section 4.5 of CommonMark 0.31.2 allows no further backtick on that line.
- **Stable text**: a number that is not finite prints as null, so the two are not told apart (`StableJson.Same`).
- **Recommendation and verdicts**: the best eligible route is priced. Verdicts and recommendation mean the same best
  route exactly then (`RouteFrontier.SameBestIff`); `RouteRows.UnpricedBestDisagrees` is a table of rows where it is
  not, and the recommended route is called underpowered.
- **Board**: a deck lies in one cluster when each of its runs names a session, or when it names only one session.
  `Board.UnsessionedBridgeSplits` is a deck of neither kind.
- **Deck order**: a run follows what it continues exactly when continuations do not run in a circle
  (`DeckOrder.OrderedDeck`), given that the runs of a task continue one task (`DeckOrder.Consistent`).
- **Claude runs**: the documentation of `parse` promises exactly one terminal whatever happens. A line that throws
  after stamping events loses them. `ClaudeCourse.PromiseKeptIff` reads off the lines, before anything is decoded,
  exactly which runs end without their terminal or open without run.started; `ClaudeRun.FirstLineFault` and
  `ClaudeRun.TerminalLost` are two such runs. Numbers in step and settled calls need more: no line that throws may have
  stamped anything (`ClaudeRun.ParseIsWellFormedIff`). The byte, event and usage bounds hold of every run.
- **Event cap**: it can be passed, by two events at most (`ClaudePromise.AlwaysBounded`), and is exactly when an
  unreserved charge meets a full cap (`ClaudeCap.CapIsPassedIff`).
- **Replay orbits**: each run circles one pair (`ReplaySeeds.OneHome`). A deck whose runs replay two pairs is one dot in
  both families; `ReplayDrawing.SharedRunIsNeverApart`.
- **Metrics route**: open values nonempty, lists without repeats, closed values in their vocabulary
  (`MetricsState.Writable`); these are the states the dashboard's own setters reach.

## What is taken as given

- The YAML reader of ticket frontmatter, with one law: it reports the state word where it stands, and replacing that
  word by another state changes the reported state alone (`ClosureTree.Faithful`).
- The agreement rules on a tree, except the two a closure can break (`CHECKLIST_STATE`, `MILESTONE_STATE`), which are
  modelled in `ClosureAgreement`.
- `Math.sqrt` and `Math.hypot` as nonnegative roots over the reals, pi as a positive number, `Math.cos` and `Math.sin`
  as any functions whose squares add up to one, and a node's hashed turn as any number; `localeCompare` as a total
  preorder.
- `TextDecoder` as section 8.1.1 of the Encoding Standard describes UTF-8 decoding (`Utf8Reader`).
- Resolving a selection to its ask (`AskCompare.Resolver`); for a plan ticket it is modelled but for the parsers of the
  ticket's own words and of the plan's declarations (`ClosureAsks.Parsers`), which a closure is taken not to affect.

## Model

| member | source | states |
|---|---|---|
| `PlanScan.ScanPlan` | core/src/registry/plan-source.ts:212-247 | The scanner's loops fill exactly the milestones and tasks that the scan of the text defines: leftmost matches, a section ended by the next heading or the next closing tag, a task ended by the next task heading. |
| `PlanScan.V1IsSound` | core/src/registry/plan-source.ts:216-239 | The shipped expressions meet the conditions the rescanning theorem asks of a grammar. |
| `PlanScan.V1IsSeparate` | core/src/registry/plan-source.ts:216-239 | Neither a task heading nor a section's end can begin inside a milestone heading's opening text. |
| `ScanOrder.ScanIsLaid` | core/src/registry/plan-source.ts:211-247 | The tokens of a plan whose values hold no `<` stand in text order, apart, in bounds, each value the text of its span with no `]` in it. |
| `PlanMeans.ScanMeans` | core/src/registry/plan-source.ts:212-247 | What the shipped scan finds, on the text's own words: the leftmost milestone headings that do not overlap, one section for each with its mark and its block, in it the leftmost task headings with their stretches and numbers, and in each stretch the leftmost status elements with their values and row numbers. |
| `PlanMeans.MatchesAre` | core/src/registry/plan-source.ts:212-247 | Matching over and over takes the leftmost place that matches, goes on behind it, and misses none. |
| `PlanMeans.HeadIff` | core/src/registry/plan-source.ts:216 | A milestone heading is matched exactly where one is written out, with exactly that name and that value. |
| `PlanMeans.TaskIff` | core/src/registry/plan-source.ts:234 | A task heading is matched exactly where one is written out, with exactly its digits. |
| `PlanMeans.StatusIff` | core/src/registry/plan-source.ts:239-241 | A status element is matched exactly where one is written out, with exactly its value. |
| `ClosureTree.SortedIsTextOrder` | core/src/closure/delta.ts:61-68 | Sorting milestones and rows by value start puts every token once, in text order. |
| `Rewrite.ScanAfterWriting` | core/src/registry/plan-source.ts:211-247 | Scanning again after any status values are rewritten finds the same milestones, tasks and rows, each holding its new value, with not a character outside the values moved. |
| `Rescan.ScanLift` | core/src/registry/plan-source.ts:211-247 | The scan of a text is the scan of the text with every value emptied, each span moved and each value read back. |
| `ValueReadsAsTask.WritingLosesTheTask` | core/src/registry/plan-source.ts:234-239 | Concrete case outside the condition: where a milestone's value is itself a task heading the plan has one task, and after `x` is written over that value it has none. |
| `Splice.SameOutsideValues` | core/src/closure/delta.ts:78-90 | The two-cursor walk answers whether the segments outside the spans of both texts are equal. |
| `Splice.SameOutsideIff` | core/src/closure/delta.ts:78-90 | The check holds iff right is left with only its span values replaced and right's spans sit where those replacements put them. |
| `Splice.Substitute` | core/src/closure/propose.ts:59-62 | The loop from the last span to the first, each edit made on the text so far. |
| `Splice.SubstituteIsSplice` | core/src/closure/propose.ts:59-62 | For edits given in any order, the right-to-left loop equals one left-to-right splice of the same edits. |
| `Splice.WrittenTwice` | core/src/closure/propose.ts:55-62 | Writing one span twice, two values one after the other at the first text's positions, is writing the second alone iff the first is as long as what stood there. |
| `Splice.PickedIsRevalued` | core/src/closure/propose.ts:55-63 | Writing only some spans is writing all of them, the others with what they already hold. |
| `EditPlan.EditsRestate` | core/src/closure/propose.ts:54-63 | Substituting over scanner spans restates the plan: exactly the chosen tokens take their new values. |
| `ClosureDelta.ClosureDelta` | core/src/closure/delta.ts:97-150 | The loops over paths and files compute the specified outcome, refusals in the order the source checks them. |
| `ClosureDelta.CompareValues` | core/src/closure/delta.ts:126-137 | One change is reported for each span whose value differs, and the first differing value outside the vocabulary refuses. |
| `ClosureExact.DeltaIff` | core/src/closure/delta.ts:97-144 | A closure is accepted iff no path appears or disappears, no mode changes, every file passes and the after tree agrees; the report is every file's changes in path order. |
| `ClosureRules.DeltaSays` | core/src/closure/delta.ts:97-144 | Which refusal is given: of the first path that appears, disappears or changes its mode; with all paths paired, of the first changed file that must not change, is no text, or changes wrongly; with all files fine, disagreement exactly when the after tree breaks the rules. Stated on paths, modes and texts. |
| `ClosureRules.PlanSays` | core/src/closure/delta.ts:115-137 | A changed plan passes iff only its values changed and each changed one is ``, `wip` or `x`; only values changed and one is another word: vocabulary; anything else: content. |
| `ClosureRules.TicketSays` | core/src/closure/delta.ts:70-75 | A changed ticket passes iff it reads on both sides and only its state changed, to `todo`, `wip` or `done`; else content or vocabulary accordingly. |
| `ClosureRules.ReportIs` | core/src/closure/delta.ts:126-137 | The report of a plan is one change for each token whose value differs, in text order, with its milestone, task, row, old and new value. |
| `ClosureRules.MayChangeIff` | core/src/closure/delta.ts:107-118 | A path may change iff it is a registered plan's, a `T` or `W` ticket's of two digits under a registered plan, or a registered light ticket's. |
| `ClosureExact.PlanCheckExact` | core/src/closure/delta.ts:115-137 | The plan comparison accepts exactly the rewritings of status values within the vocabulary. |
| `ClosureExact.PlanRewriteAccepted` | core/src/closure/delta.ts:121-137 | Every rewriting within the vocabulary is accepted and reported as exactly the values that differ. |
| `ClosureExact.PlanAcceptedIsRewrite` | core/src/closure/delta.ts:121-137 | Whatever the plan comparison accepts is such a rewriting, with its report. |
| `ClosureExact.RewrittenTokens` | core/src/closure/delta.ts:61-68 | A rewritten plan has the same tokens, holding the new values, so edits compose. |
| `ClosureExact.TicketCheckExact` | core/src/closure/delta.ts:70-75 | The ticket comparison accepts a difference exactly when it is another state word in the same place. |
| `ClosureExact.TicketRewriteAccepted` | core/src/closure/delta.ts:121-136 | Rewriting a ticket's state word is accepted and reported as that one change. |
| `ClosureRebuilt.AcceptedRebuilds` | core/src/closure/delta.ts:97-144 | Where the tokens of each changed plan are told apart by milestone, task, row and value, an accepted after tree is the before tree with each reported value written at its span. |
| `ClosureRebuilt.PlanRebuilt` | core/src/closure/delta.ts:115-137 | The same for one plan: its changes, written at the spans they name, rebuild the accepted text. |
| `ClosureRebuilt.TicketRebuilt` | core/src/closure/delta.ts:70-75 | The same for one ticket and its state word. |
| `ClosureRebuilt.ReportDetermines` | core/src/closure/delta.ts:126-137 | Over tokens told apart, two rewritings with one report are the same rewriting. |
| `ClosureRebuilt.AmbiguousIff` | core/src/closure/delta.ts:121-137 | Two different accepted texts share one report exactly when two tokens of the plan are alike in milestone, task, row and value. |
| `ClosureWrite.ApplyClosureChoices` | core/src/closure/propose.ts:48-82 | The loops over rows, tickets and milestone headings produce the specified tree, or nothing where a lookup throws; what that tree says is ClosureOutcome.AppliedReads. |
| `ClosureRows.RowsWrite` | core/src/closure/propose.ts:54-63 | A proposal's substitutions write `x` on exactly the closed rows; a row marked `x` and not closed again keeps its mark. |
| `ClosureSafe.ProposalIsClosable` | core/src/closure/propose.ts:20-45 | What proposing returns is a proposal the writer can apply: every row names one token of the one task with its number. Which tickets and rows those are is ClosureProposed.ProposalIs. |
| `ClosureProposed.ProposalIs` | core/src/closure/propose.ts:20-45 | What is proposed: exactly the selected tickets that were built (all of them when no set is given), the others exactly as not closable, both in the order selected; each proposed ticket names the only task of its number and a file that carries its id; and the rows are one for each token of these tasks, ticket by ticket in plan order, holding that token's number, place and value. |
| `ClosureProposed.ProposesIff` | core/src/closure/propose.ts:20-33 | Proposing throws exactly when no plan of that name is registered, the first one's text does not read, or a built ticket's task or file is not the only one of its number and id. |
| `ClosureProposed.TicketNumberIs` | core/src/closure/propose.ts:28 | A ticket id carries a number iff a first letter and digits make it up, one digit at least, and the number is what they say in decimal. |
| `ClosureAccepted.RowedPlan` | core/src/closure/propose.ts:63-64 | Closing rows restates the plan: the same milestones, tasks and rows, closed rows reading `x`. |
| `ClosureAccepted.FinalPlan` | core/src/closure/propose.ts:73-80 | The milestone round restates the plan again: the same milestones, tasks and rows, every row kept and every milestone that no proposed ticket touches. What a touched one reads is ClosureOutcome.PlanReads. |
| `ClosureOutcome.PlanReads` | core/src/closure/propose.ts:54-80 | The written plan read off its own scan: each row is `x` iff the owner closed it or it was `x` (any other value stays); a milestone with a task of a proposed ticket reads `x` iff every task in it has rows and all of them read `x`, else `wip`; every other milestone reads what it read. |
| `ClosureAccepted.FinalIsRewriting` | core/src/closure/propose.ts:54-80 | Both rounds together are one rewriting of status values within the vocabulary. |
| `ClosureTwice.TwiceIff` | core/src/closure/propose.ts:54-63 | Where two rows of a proposal name one token, the plan comes out as the second asked iff the first wrote a value as long as what stood there. |
| `ClosureTwice.DoubledIsRefused` | core/src/closure/delta.ts:115-137 | An empty row closed twice reads `xx`, and the comparison refuses the plan that was written. |
| `TwoTickets.OneRowReads` | core/src/registry/plan-source.ts:212-247 | A concrete plan: one unmarked milestone with one task of one empty row, read to its two tokens. |
| `TwoTickets.BothProposed` | core/src/closure/propose.ts:20-45 | For that plan, proposing `T01` and `W01` yields two rows naming its one token. |
| `TwoTickets.TwoTicketsSpoil` | core/src/closure/propose.ts:47-82 | Applying that proposal throws nothing, and the tree it writes is refused. |
| `ClosureSafe.AppliedIs` | core/src/closure/propose.ts:48-82 | The writer never throws on such a proposal and leaves the plan restated, each proposed ticket `done` iff its rows are nonempty and all `x` (else `wip`), and every other file as it was. |
| `ClosureOutcome.AppliedReads` | core/src/closure/propose.ts:47-82 | The whole written tree: the plan as ClosureOutcome.PlanReads has it, each proposed ticket with its id kept and its state `done` iff its own task now has rows and all read `x`, else `wip`, and every other file as it was. |
| `ClosureSafe.WrittenTreeIsAccepted` | core/src/closure/propose.ts:47-82 | The written tree is never refused for a path, a mode, content or a vocabulary: the delta accepts it iff it satisfies the agreement rules. |
| `ClosureAgreement.AgreementKept` | core/src/registry/plan-agreement.ts:127-163 | If ticket states agreed with checklist rows and milestone markers before a closure, they agree after it. |
| `ClosureAgreement.ProposedTicketAgrees` | core/src/registry/plan-agreement.ts:148-163 | A proposed ticket's new state agrees with the plan it is written beside. |
| `ClosureAgreement.OtherTicketAgrees` | core/src/registry/plan-agreement.ts:127-140 | A ticket left out of the proposal keeps agreeing, though its milestone's marker may change. |
| `AskedFor.MaskRow` | core/src/closure/asked-for.ts:79-91 | The segment loop returns the row less the values of the spans inside it. |
| `AskedRows.RowMeans` | core/src/closure/asked-for.ts:71-78 | The row of a token: from the last `li` tag that a search up to it finds to the end of the first `</li>` behind it, where there are both and no item closes in between; otherwise the stretch around it without a line break. |
| `AskedSame.RowIsBase` | core/src/closure/asked-for.ts:66-93 | A checklist row found by searching around a token, its values taken out, is the row of the text with no values. |
| `AskedSame.AsksUnchanged` | core/src/closure/asked-for.ts:66-93 | Writing any status values without `<`, `]` or a line break through the scanner's spans leaves every masked checklist row of every task unchanged. |
| `NewlineInValue.WritingChangesTheRow` | core/src/closure/asked-for.ts:71-77 | Concrete case outside the condition: after a value that is a line break, the row of the next token on that line starts inside the value, and writing `x` over it changes that row. |
| `TaskRanges.OwnRowsOfPlan` | core/src/closure/asked-for.ts:81-82 | A token of the plan standing inside a task's stretch is one of that task's rows, so masking by the task's own tokens misses none. |
| `ClosureAsked.ClosureKeepsAsks` | core/src/closure/asked-for.ts:66-103 | Whatever is closed, every checklist row of every task of the plan asks what it asked before. |
| `ClosureAsks.ClosureNeverAltersTheAsk` | core/src/closure/asked-for.ts:96-104 | Whatever is closed, the ask of every ticket of the plan is the same before and after, the error of one that does not resolve included, so comparing the two finds nothing. |
| `StableJson.StablePrintsCanon` | core/src/closure/asked-for.ts:131-137 | The stable text of a value is the plain JSON text of the value with keys sorted at every level. |
| `StableJson.Reads` | core/src/closure/asked-for.ts:131-137 | A printed value can be read off the front of any text that may follow it: printing is injective and prefix-free. |
| `StableJson.StableIffSame` | core/src/closure/asked-for.ts:131-137 | Two values have the same stable text exactly when they are equal up to object key order, a number that is not finite counting as null. |
| `AskCompare.CompareAskedFor` | core/src/closure/asked-for.ts:140-170 | The loops over selections and fields compute the specified outcome. |
| `AskCompare.UnchangedIff` | core/src/closure/asked-for.ts:140-170 | The comparison passes iff every selection resolves in both trees and every compared field is structurally equal; it reports a tree error iff some selection does not resolve. |
| `AskCompare.DifferencesAreExact` | core/src/closure/asked-for.ts:147-161 | Every difference told is a field that differs, and every field that differs is told. |
| `AskFields.PlanTells` | core/src/closure/asked-for.ts:147-151 | Of two plan asks the differences told are exactly these: a prompt, title, milestone, dependency list, serves, checklist or declarations that differ as values, under that name, with both values. |
| `AskFields.LightTells` | core/src/closure/asked-for.ts:152-161 | Of two light asks: each frontmatter key of either side whose values differ, absence counting as a value of its own, and the body where the texts differ. |
| `AskCompare.FirstErrorIsTold` | core/src/closure/asked-for.ts:143-169 | The error told is the first one met in selection order, the earlier tree first. |
| `Handoffs.RemoveHandoffs` | core/src/closure/asked-for.ts:37-64 | The loop over lines, with its fence, section flag and popped blank lines, computes the specified text. |
| `Handoffs.OnlyHandoffsGo` | core/src/closure/asked-for.ts:36-64 | Exactly the lines of Handoff sections go: of the rest every line with text stays, in order, and none is added. |
| `Handoffs.Idempotent` | core/src/closure/asked-for.ts:37-64 | Removing Handoff sections twice is removing them once. |
| `Handoffs.NothingElseGoes` | core/src/closure/asked-for.ts:36-64 | A body without a Handoff heading outside its fences is returned as it is, fenced headings included. |
| `HandoffRules.OneSectionGoes` | core/src/closure/asked-for.ts:36-64 | A Handoff section between other text goes with the blank lines above it, one line break as the next heading's own stands in its place, and every other character stays. |
| `HandoffRules.FenceMoves` | core/src/closure/asked-for.ts:43-48 | A line of up to three blanks and at least three backticks or tildes opens a fence, and only one of the same character, at least as long, with nothing but white space behind it, closes that. |
| `HandoffRules.OtherLinesDoNotMove` | core/src/closure/asked-for.ts:43-48 | No other line opens or closes a fence. |
| `HandoffRules.MarkerIff` | core/src/closure/asked-for.ts:43 | A fence line is recognised exactly where one stands. |
| `HandoffRules.HeadingIs` | core/src/closure/asked-for.ts:50 | A section ends at one or two hashes and a blank. |
| `Handoffs.EditsInsideDoNotShow` | core/src/closure/asked-for.ts:37-64 | Any edit of a Handoff section that leaves it one section, its heading line included, leaves the result unchanged; where text follows, fences must close and the last line end; at the end of the file nothing is asked. |
| `SessionStacks.Find` | dashboard/src/session-stacks.ts:40-49 | The walk ends, returns the root, and path compression changes no root. |
| `SessionStacks.Compressed` | dashboard/src/session-stacks.ts:43-47 | Pointing a node straight at its root changes the root of no node. |
| `SessionStacks.JoinAll` | dashboard/src/session-stacks.ts:56-60 | After the nested loops every related pair shares a root, and only joined runs do. |
| `SessionStacks.RootIffTogether` | dashboard/src/session-stacks.ts:50-60 | Sharing a root is being joined by a chain of related runs. |
| `SessionStacks.GroupSessionStacks` | dashboard/src/session-stacks.ts:36-70 | The stacks are the connected components, ordered by first member, members in input order, keyed by the first run. |
| `SessionStacks.OneStackIff` | dashboard/src/session-stacks.ts:24-70 | Two runs are in one stack iff a way leads from one to the other, each step between runs of one project that are attempts of one task or of which one continues the other's task, said on the runs' own fields. |
| `SessionStacks.StacksAreUnique` | dashboard/src/session-stacks.ts:31-70 | That description has one answer: any two such listings of the components are the same. |
| `Clusters.Find` | dashboard/src/session-clusters.ts:81-85 | Following links ends at a group that leads to itself. |
| `Clusters.LinkAll` | dashboard/src/session-clusters.ts:86-91 | After every connection, links only lead to lesser keys, join only connected groups and join every recorded pair. |
| `Clusters.RootIffJoined` | dashboard/src/session-clusters.ts:81-92 | Two groups share a root exactly when connections join them. |
| `Clusters.ClusterKeys` | dashboard/src/session-clusters.ts:75-93 | Every group is mapped to the least member of its connected component, a function of the set of groups and the set of connections alone. |
| `Clusters.KeyIsFirstReached` | dashboard/src/session-clusters.ts:75-93 | A group's key is a group reached from it over recorded connections, and the first in code order of all that are. |
| `Board.GroupConnections` | dashboard/src/session-clusters.ts:48-68 | The connections found are those of the related pairs of runs naming two different sessions, one for each direction and kind of pair, and each holds its own two sessions and project. |
| `Board.CrossesIff` | dashboard/src/session-clusters.ts:54-55 | A pair of runs is recorded iff both name a session, not the same one, and they are of one project and attempts of one task or one continues the other's task. |
| `Board.BoardSections` | dashboard/src/session-clusters.ts:218-288 | Every deck of visible runs stands once, alone or as the member naming exactly its sessions in the cluster of its first session; clusters come from every run held. |
| `Board.EveryRunHasOnePlace` | dashboard/src/session-clusters.ts:230-248 | Every visible run is in one deck, and that deck in exactly one place of one section. |
| `Board.DeckLiesInOneCluster` | dashboard/src/session-clusters.ts:218-248 | When every run of a deck names a session, all its sessions lie in one cluster. |
| `Board.HidingNeverSplits` | dashboard/src/session-clusters.ts:222-248 | A deck naming a single session, whatever runs without one it holds, and a deck whose runs all name sessions, stands in the cluster of every session it names; that cluster comes from every run held, whichever are hidden. |
| `Board.UnsessionedBridgeSplits` | dashboard/src/session-clusters.ts:243 | Concrete case outside the condition: with a run naming no session between two that do, one deck holds sessions of two clusters. |
| `DeckOrder.DepthOf` | dashboard/src/canvas-graph.ts:125-136 | The memoised descent ends even on a cycle; without one every task sits one deeper than the task it continues. |
| `DeckOrder.Depths` | dashboard/src/canvas-graph.ts:121-137 | Every task of the deck gets a depth, its place in the chain where continuations are acyclic. |
| `DeckOrder.OrderedDeck` | dashboard/src/canvas-graph.ts:121-143 | The deck is a permutation of its runs sorted by depth, start, attempt and id; where the runs of each task continue the same task, every run follows all runs of the task it continues iff continuations are acyclic. |
| `DeckOrder.FollowingIsAcyclic` | dashboard/src/canvas-graph.ts:110-143 | An order in which runs follow what they continue exists only where continuations do not run in a circle. |
| `CanvasGraph.PairIdReads` | dashboard/src/canvas-graph.ts:106-108 | Different replay pairs never share a node id, whatever characters their names hold. |
| `CanvasGraph.EdgesJoinPlacedNodes` | dashboard/src/canvas-graph.ts:154-283 | No edge dangles: both of its ends are nodes on the map. |
| `CanvasGraph.ArrivalOrderDoesNotShow` | dashboard/src/canvas-graph.ts:87-92 | Reordering the runs in any way leaves the placed node ids and the edge set as they were. |
| `CanvasBuild.DeckEdges` | dashboard/src/canvas-graph.ts:202-217 | A deck's edges run to its pairs, its sessions and the registered plans it names, as continuations iff it names two sessions. |
| `CanvasBuild.AddDeck` | dashboard/src/canvas-graph.ts:168-218 | Each deck adds its node, its edges, its weight under every session and plan it names, and its replays under their pair and project. |
| `CanvasBuild.WeighsIffNamed` | dashboard/src/canvas-graph.ts:206-217 | A session or plan has weight exactly when some deck names it. |
| `CanvasBuilt.DeckNodeId` | dashboard/src/canvas-graph.ts:87-92 | A deck's node id is that of the least session id among all runs joined to any one of its runs. |
| `CanvasBuilt.BuildCanvasGraph` | dashboard/src/canvas-graph.ts:154-283 | The nodes on the map and the edges are exactly those the runs place and connect; every recorded session and registered plan is on the map or kept unplaced, and nothing with runs behind it is unplaced. |
| `Wilson.ScoreHoldsRate` | dashboard/shared/route-metrics.ts:116-124 | 0 <= lo <= p <= hi <= 1, and both ends solve n(p - x)^2 = z^2 x(1 - x). |
| `Wilson.BoundsAreRoots` | dashboard/shared/route-metrics.ts:116-124 | The two bounds are all the solutions of that quadratic. |
| `Wilson.ScoreIsSublevel` | dashboard/shared/route-metrics.ts:116-124 | The interval is exactly the rates that the score test at this z does not reject. |
| `Wilson.ScoreIs` | dashboard/shared/route-metrics.ts:123 | Both clamps are redundant. |
| `Wilson.ScoreRises` | dashboard/shared/route-metrics.ts:116-124 | More successes never lower either end. |
| `Wilson.ScoreMirrors` | dashboard/shared/route-metrics.ts:116-124 | Counting failures instead gives the mirror image. |
| `Wilson.ScoreNarrows` | dashboard/shared/route-metrics.ts:116-124 | At a fixed rate more trials make the interval strictly narrower. |
| `RouteRows.ByRoute` | dashboard/shared/route-metrics.ts:539-549 | Each key met gets exactly its rankable rows of the role, keys and rows in the order met. |
| `RouteFrontier.LineIsAntichain` | dashboard/shared/route-metrics.ts:570-611 | No point of the line dominates another. |
| `RouteFrontier.BeatenFromLine` | dashboard/shared/route-metrics.ts:603-610 | Every solid point off the line is dominated by a point on it. |
| `RouteFrontier.LineRises` | dashboard/shared/route-metrics.ts:582-611 | Along the line a greater x means a greater p, and equal x equal p. |
| `RouteFrontier.HollowNeverShapesLine` | dashboard/shared/route-metrics.ts:575-611 | Adding or removing hollow or unplaced points never changes the line. |
| `RouteFrontier.ChoiceIsCheapestOverlapping` | dashboard/shared/route-metrics.ts:766-773 | The local choice overlaps the best route, costs no more than any route that does, and so no more than the best. |
| `RouteFrontier.SameBestIff` | dashboard/shared/route-metrics.ts:636-640 | Verdicts and recommendation mean the same best route exactly when the best eligible route is priced. |
| `RouteFrontier.ChoiceIsNeverUnderpowered` | dashboard/shared/route-metrics.ts:658-684 | With the best eligible route priced, the recommended route is placed and never tagged insufficient or underpowered, which RouteVerdicts.VerdictIs spells out. |
| `RouteVerdicts.VerdictIs` | dashboard/shared/route-metrics.ts:658-684 | All four verdicts, each as an iff on counts, rates, intervals and prices: insufficient iff fewer than five settled rows; underpowered iff besides the best plotted route's interval lies wholly above; overkill iff neither and another plotted route shares a rate with it and costs at most two thirds; else frontier. |
| `RouteVerdicts.CheapestIsNeverOverkill` | dashboard/shared/route-metrics.ts:674-679 | A cheapest plotted route that is not free is never called overkill. |
| `RouteVerdicts.BestIsNeverUnderpowered` | dashboard/shared/route-metrics.ts:668-672 | The best plotted route is never insufficient or underpowered. |
| `RouteFrontier.ScoreBetween` | dashboard/shared/route-metrics.ts:784-787 | Each prior-only score lies between the prior and the observed rate. |
| `RouteAnswers.RouteCounts` | dashboard/shared/route-metrics.ts:757-764 | What a route says is counted from the rows: its settled rows, those at first pass, and the mean of the known prices, over the rows of its role, key, source and class. |
| `RouteAnswers.EveryRouteIsThere` | dashboard/shared/route-metrics.ts:539-549 | A route stands in the table iff some row counts for it. |
| `RouteAnswers.RecommendedIs` | dashboard/shared/route-metrics.ts:742-773 | The local recommendation: none iff classes are mixed or no route has five settled rows; otherwise the cheapest of the settled routes whose interval meets that of the best one, ties by rate and then key. |
| `RouteAdvice.Offered` | dashboard/shared/route-metrics.ts:775-782 | The loop over untested routes, with its growing set of keys seen, offers what is specified. |
| `RouteAdvice.RecommendIs` | dashboard/shared/route-metrics.ts:742-788 | There is an answer iff classes are not mixed and something was run or offered, and it is local iff some route has five settled rows. |
| `RouteAdvice.LocalAnswer` | dashboard/shared/route-metrics.ts:766-774 | A local answer ranks exactly the settled routes, once each: first those whose interval meets the best one's, preferred first, then the others, better first; the first is the choice, and the best is told. |
| `RouteAdvice.PriorAnswer` | dashboard/shared/route-metrics.ts:775-788 | An answer led by priors ranks every route of the rows and every untested key no row has, once each, by the mean of a prior of strength four with the rows added, then price, rate and key; the first is both choice and best. |
| `RouteAdvice.FrontierIs` | dashboard/shared/route-metrics.ts:582-588 | The frontier's routes are those of the rows, and none where classes are mixed. |
| `RouteRows.RecommendationAgreesWithVerdicts` | dashboard/shared/route-metrics.ts:742-773 | From the rows themselves, one source and one class, the best eligible route priced: the locally recommended route is on the frontier's list, never tagged insufficient or underpowered there, and costs no more than the best. |
| `RouteRows.UnpricedBestDisagrees` | dashboard/shared/route-metrics.ts:658-773 | Concrete rows outside the condition, at z = 1.96: 5 of 5 unpriced, 3 of 5 at price 1, 99 of 100 at price 3. The second route is recommended, and the verdict on it is underpowered. |
| `ReplayOrbits.SteppedStaysInOrbit` | dashboard/src/canvas-layout.ts:237-274 | However hard it is pushed, a run ends its step inside its limit. |
| `ReplayOrbits.NearerItsOwn` | dashboard/src/canvas-layout.ts:233-236 | Inside 49% of the way to another pair a run is strictly nearer its own. |
| `ReplayOrbits.OrbitsStayApart` | dashboard/src/canvas-layout.ts:106-109 | Runs inside their limits are no nearer than what is left between their pairs. |
| `ReplayOrbits.RadiusIs` | dashboard/src/canvas-layout.ts:80-82 | A family's circle has radius ninety at least, and else just room for sixty-two a run. |
| `ReplayOrbits.SpringIs` | dashboard/src/canvas-layout.ts:240-250 | The spring changes the velocity along the line to the pair by 0.045 of what is missing to the circle, inwards beyond it and outwards inside it. |
| `ReplayOrbits.LeavesAway` | dashboard/src/canvas-layout.ts:243-250 | On top of its pair a run leaves in its own hashed direction, as from a hundredth away. |
| `ReplayOrbits.PushIs` | dashboard/src/canvas-layout.ts:251-260 | Another run pushes straight away by 52000 over the square of the gap, the gap taken as one at least. |
| `ReplayOrbits.KeptIs` | dashboard/src/canvas-layout.ts:265-273 | A run past its limit is put at the limit on the same line from its pair, at rest; inside it nothing is done. |
| `ReplayLayout.Body.StepOnce` | dashboard/src/canvas-layout.ts:240-273 | One body's spring, pushes, damping, drift and clamp, field by field. |
| `ReplayLayout.StepReplayFamilies` | dashboard/src/canvas-layout.ts:227-276 | After a step every unpinned run is inside its own pair's limit; pairs and pinned runs have not moved. |
| `ReplayLayout.SettleReplays` | dashboard/src/canvas-layout.ts:343-354 | From a start in orbit, or after at least one step from anywhere, every unpinned run is inside its own pair's limit; pairs and pinned runs have not moved. |
| `ReplayLayout.OrbitIsNearest` | dashboard/src/canvas-layout.ts:233-236 | Whatever is pinned, as long as no two pairs coincide, each unpinned run is strictly nearer its own pair than any other. |
| `ReplaySlots.SeedPairs` | dashboard/src/canvas-layout.ts:124-144 | Any two pairs are a whole spacing apart in one coordinate, and each region starts a gap and two extents right of the one before. |
| `ReplaySlots.SlotsApart` | dashboard/src/canvas-layout.ts:133-135 | Two slots of one region differ by a whole spacing in their column or their row. |
| `ReplaySlots.ApartIsFar` | dashboard/src/canvas-layout.ts:108-109 | A whole spacing apart in one coordinate is at least that distance. |
| `ReplaySeeds.ColumnsAreWide` | dashboard/src/canvas-layout.ts:116-118 | A region gets at least one column, none without a pair, and never more rows than columns. |
| `ReplaySeeds.RingIsAtRadius` | dashboard/src/canvas-layout.ts:136-140 | A run starts exactly at its family's radius from its pair. |
| `ReplaySeeds.RingIsEven` | dashboard/src/canvas-layout.ts:136-140 | The runs of a pair start evenly around it, each one step of the full circle on from the last, from the pair's own turn. |
| `ReplaySeeds.FitIsMost` | dashboard/src/canvas-layout.ts:111-118 | The columns fitted are the most that take no more than a region's share of the ordinary drawing's width. |
| `ReplaySeeds.SeedReplays` | dashboard/src/canvas-layout.ts:100-144 | From the families and the ordinary drawing alone: every pair two extents and forty from every other, regions in key order side by side, all beside or below the ordinary drawing, every run on its pair's ring. |
| `ReplayDrawing.StartsInOrbit` | dashboard/src/canvas-layout.ts:227-236 | With no pair pinned every run is inside its limit before the first step. |
| `ReplayDrawing.LayoutReplays` | dashboard/src/canvas-layout.ts:321-354 | After any number of steps, none included: pins are kept; where neither a node nor its pair is pinned, runs of different pairs are at least forty apart and nodes of different regions and of the ordinary drawing are at least a gap apart; and every unpinned run is strictly nearer its own pair than any other that stands elsewhere (with a pair pinned, from the first step on). |
| `ReplayDrawing.SharedRunIsNeverApart` | dashboard/src/canvas-layout.ts:68-78 | A run that circles two pairs breaks that distance in every drawing. |
| `Timeline.LayoutTimeline` | dashboard/src/timeline.ts:25-76 | The loops over widths, gaps and cursor compute the specified blocks. |
| `Timeline.ShrinkWidths` | dashboard/src/timeline.ts:56-63 | Widths updated in place: each keeps the floor and a share of the rest in proportion to its excess. |
| `Timeline.OrderedByStart` | dashboard/src/timeline.ts:33-40 | The blocks are the finite items, each once, by start and then id, none with a negative raw position or width. |
| `TimelineRules.BlocksAre` | dashboard/src/timeline.ts:43-76 | Every block, literally: it asks its own width or the floor, and what lay free before it up to the farthest earlier end; where all that fits it gets both; where only the gaps are too much they shrink by one factor and the last block ends the track; where the widths alone are, no gap stays and what each asks above the floor shrinks by one factor, to end the track, or to nothing where even the floors pass it. |
| `TimelineRules.BlocksInOrder` | dashboard/src/timeline.ts:33-40 | One block for each item whose start and end are numbers, earlier starts first, then by id. |
| `TimelineRules.RawIs` | dashboard/src/timeline.ts:33-39 | On its own an item stands and reaches in proportion of its start and length to the span, never negative. |
| `TimelineRules.TrackIs` | dashboard/src/timeline.ts:29-32 | The zone is held between zero and forty, the floor at 0.5 with 3.5 as default, the span at one; the track is 99.6 less the zone. |
| `Timeline.BlocksNeverOverlap` | dashboard/src/timeline.ts:20-24 | Blocks keep their start order, never overlap, and none is narrower than the minimum. |
| `Timeline.FitsTrackIff` | dashboard/src/timeline.ts:20-24 | The last edge is at most 99.6 exactly when minimum times count fits the track. |
| `Timeline.ShrunkFills` | dashboard/src/timeline.ts:55-63 | Shrunk widths fill the track exactly, once the floors fit it. |
| `Timeline.UntouchedIsExact` | dashboard/src/timeline.ts:43-75 | Where nothing needs widening or shrinking and the raw blocks are disjoint, every block sits exactly at its raw position. |
| `ChartLabels.PlaceLabels` | dashboard/src/metrics-chart.ts:189-220 | The loop in priority order, its taken rectangles and its map by id give each request its specified label; what that is LabelRule.LabelIs says. |
| `ChartLabels.LabelsAreClear` | dashboard/src/metrics-chart.ts:183-220 | A placed label is one of its request's candidates, inside the bounds and clear of every avoided area. |
| `ChartLabels.LabelsNeverOverlap` | dashboard/src/metrics-chart.ts:183-220 | Labels of different requests never overlap. |
| `ChartLabels.DroppedOnlyIfContested` | dashboard/src/metrics-chart.ts:183-220 | A label is dropped only if each of its fourteen candidates left the bounds, met an avoided area, or met the label of a request the walk met before; LabelRule.LabelIs says which those are. |
| `LabelRule.LabelIs` | dashboard/src/metrics-chart.ts:189-220 | With distinct ids a request gets the first of its fourteen spots, in the stated order, that lies inside the bounds and clear of the avoided areas and of the labels of all requests of greater priority, or of equal priority and lesser id; and none iff there is no such spot. |
| `LabelRule.OnlyEarlierCount` | dashboard/src/metrics-chart.ts:197-218 | A label depends on its own request and on those placed before it alone. |
| `LabelRule.LowerNeverShows` | dashboard/src/metrics-chart.ts:199 | Taking out a request of lower priority never changes another's label. |
| `ChartLabels.OrderDoesNotMatter` | dashboard/src/metrics-chart.ts:197 | The label of a request does not depend on the order the requests were given in. |
| `ChartLabels.CandidatesClearTheMark` | dashboard/src/metrics-chart.ts:202-211 | Every candidate keeps the gap from its own mark on one side. |
| `ChartLabels.IntersectsIffOverlap` | dashboard/src/metrics-chart.ts:176-178 | Rectangles with area intersect exactly when some point is strictly inside both. |
| `ChartLabels.ThinTicks` | dashboard/src/metrics-chart.ts:101-111 | The keep loop and the pop loop compute the specified ticks. |
| `ChartLabels.ThinnedIsSpaced` | dashboard/src/metrics-chart.ts:96-111 | Kept ticks stay in order with both ends, and neighbours leave the gap unless only the ends are left. |
| `TickRule.TicksAre` | dashboard/src/metrics-chart.ts:101-111 | Which ticks are labelled: of more than two the first and the last; of those between, going forward, each the gap away from the last one kept and no other; and of these the ones nearest the end drop out for as long as they crowd the last tick. |
| `ChartLabels.NothingDroppedIff` | dashboard/src/metrics-chart.ts:96-111 | No tick is dropped exactly when neighbours already leave the gap. |
| `Percent.UriRoundTrip` | dashboard/src/metrics-lens.ts:179-185 | Percent-decoding undoes percent-encoding on every text. |
| `MetricsRoute.UnescapedIsRoute` | dashboard/src/metrics-lens.ts:247-266 | Un-escaping `%2F` and `%40` touches only escapes written for a slash or an at sign, so the route stays decodable. |
| `MetricsRoute.EncodedReads` | dashboard/src/metrics-lens.ts:179-185 | A value written encoded reads back, plus signs and percent signs included. |
| `MetricsRoute.SplitJoined` | dashboard/src/metrics-lens.ts:168-189 | Splitting undoes joining when no part holds the separator. |
| `MetricsRoute.ListReads` | dashboard/src/metrics-lens.ts:187-189 | A list of encoded values with literal commas reads back as it was, values holding commas included. |
| `MetricsState.ReadParams` | dashboard/src/metrics-lens.ts:168-177 | The loop keeps the first value under each decoded key, still encoded. |
| `MetricsState.PrintRoute` | dashboard/src/metrics-lens.ts:247-266 | The pushes, one for each field away from its default, make the specified hash. |
| `MetricsRoundTrip.RoundTrip` | dashboard/src/metrics-lens.ts:201-266 | Parsing a printed state restores it: families in pill order, the view a named run forces, an off list equal to its default elided and restored. |
| `MetricsRoundTrip.V1IsSound` | dashboard/src/metrics-lens.ts:44-153 | The shipped views, groups, families and axes meet the conditions of the round trip. |
| `Utf8.TruncateToCodePoint` | core/src/adapters/stream/output-budget.ts:56-66 | The cut steps back from the limit to a character boundary. |
| `Utf8.CutIsFitting` | core/src/adapters/stream/output-budget.ts:56-66 | The cut keeps exactly the longest prefix of whole characters that fits. |
| `Utf8.FittingIsLongest` | core/src/adapters/stream/output-budget.ts:56-66 | No longer prefix fits. |
| `EventSequencers.OutputBudget.Offer` | core/src/adapters/stream/output-budget.ts:157-175 | An event is accepted iff it and everything owed still fit the cap. |
| `EventSequencers.OutputBudget.FitText` | core/src/adapters/stream/output-budget.ts:203-217 | The text kept is the longest whole-character prefix that fits the remaining bytes, and cutting is noted. |
| `BudgetSlots.OfferedIff` | core/src/adapters/stream/output-budget.ts:157-175 | A refusable event is stamped under the next number iff none was refused before and the log has room for it, one notice, the terminal and a settlement for each open call. |
| `BudgetSlots.OpenedIff` | core/src/adapters/stream/output-budget.ts:157-184 | A call is opened iff there is room for its settlement besides. |
| `BudgetSlots.NoticedIff` | core/src/adapters/stream/output-budget.ts:222-243 | The truncation notice takes the first slot there is, once. |
| `BudgetSlots.CutIff` | core/src/adapters/stream/output-budget.ts:203-217 | A text is cut iff one was cut before or its bytes and those delivered pass the limit. |
| `BudgetSlots.ClockNotedIff` | core/src/adapters/stream/event-sequencer.ts:492-525 | The clock is noted iff it was not yet and a provider's clock cannot be read or goes back behind the latest one read. |
| `EventSequencers.EventSequencer.Text` | core/src/adapters/stream/event-sequencer.ts:236-256 | Text moves the state exactly as specified: clock notice first, then what fits. |
| `EventSequencers.EventSequencer.RequestTool` | core/src/adapters/stream/event-sequencer.ts:261-300 | A call is minted a fresh number and its settlement reserved before it is offered. |
| `EventSequencers.EventSequencer.CompleteTool` | core/src/adapters/stream/event-sequencer.ts:302-322 | A completion settles the call it names, and nothing when none is open. |
| `EventSequencers.EventSequencer.CloseTools` | core/src/adapters/stream/event-sequencer.ts:560-570 | Every open call is settled, in order. |
| `EventSequencers.EventSequencer.End` | core/src/adapters/stream/event-sequencer.ts:417-437 | Failing settles what is open and emits the one terminal; nothing if already ended. |
| `EventSequencers.EventSequencer.Stop` | core/src/adapters/stream/event-sequencer.ts:439-450 | Cancelling likewise. |
| `EventSequencers.EventSequencer.Succeed` | core/src/adapters/stream/event-sequencer.ts:390-415 | Completing likewise, or failing where the model was never resolved. |
| `SequencingKept.TextKeeps` | core/src/adapters/stream/event-sequencer.ts:236-256 | Text keeps the run invariant: numbers in step, calls paired, counts and budget exact. |
| `SequencingKept.ToolRequestedKeeps` | core/src/adapters/stream/event-sequencer.ts:261-300 | So does requesting a tool, which never reuses a number. |
| `SequencingKept.ToolCompletedKeeps` | core/src/adapters/stream/event-sequencer.ts:302-322 | So does completing one, settled at most once. |
| `SequencingKept.SettleAllKeeps` | core/src/adapters/stream/event-sequencer.ts:560-570 | Settling everything leaves nothing open. |
| `SequencingKept.FailKeeps` | core/src/adapters/stream/event-sequencer.ts:417-437 | Failing ends a running sequence well-formed. |
| `SequencingKept.CompleteKeeps` | core/src/adapters/stream/event-sequencer.ts:390-415 | Completing ends a running sequence well-formed. |
| `SequencingKept.AnyEnd` | core/src/adapters/stream/event-sequencer.ts:417-450 | A terminal call ends the run whatever came before, and adds nothing to one that has ended. |
| `ClaudeStream.DecodeKeeps` | core/src/adapters/claude-code-stream.ts:127-201 | Decoding any line, to its end or to where it throws, keeps the invariants, only adds events, and reports usage at most once. |
| `ClaudeStream.ResultKeeps` | core/src/adapters/claude-code-stream.ts:463-505 | The result line reports usage at most once and always ends the run; how, ClaudeEnding.TerminalIs says. |
| `ClaudeStream.SumsKept` | core/src/adapters/claude-code-stream.ts:241-258 | After every line the delta sum is exactly what the deltas reported, absent where none did. |
| `ClaudeRun.ReadSums` | core/src/adapters/claude-code-stream.ts:241-258 | So it is after any number of lines. |
| `ClaudeAdapter.ClaudeStreamDecoder.Read` | core/src/adapters/claude-code-stream.ts:127-201 | The decoder's line dispatch, on its own fields and the sequencer's, moves both as specified. |
| `ClaudeAdapter.ParseRun` | core/src/adapters/claude-code.ts:549-647 | The read loop, the held terminal and the two exits deliver exactly the specified events; which terminal that is ClaudeEnding.TerminalIs says, and what else is heard ClaudePlain.RunSaysPlain. |
| `ClaudeRun.ParseIsWellFormedIff` | core/src/adapters/claude-code.ts:549-647 | For any lines, any end of the stream, any abort and any limits: the delivered run is well-formed (numbers in step, one terminal and it last, every call settled once) iff no line that threw had stamped an event first. |
| `ClaudeCourse.PromiseKeptIff` | core/src/adapters/claude-code.ts:549-647 | Exactly one terminal is delivered, and it last, unless the first line that throws is an assistant line naming, on a run still open, a model that cannot be represented or is not the one named before; run.started comes once and first unless that line is the first that is not blank. Both directions, from the lines alone. |
| `ClaudeEnding.TerminalIs` | core/src/adapters/claude-code-stream.ts:127-505 | Which terminal arrives, from the lines alone: the first line that ends the run settles it (a model not representable or another than named: fails so; a blocking limit or quota: exhausted; a result: completed with the measured exit code iff it did not fail and a model was named before, else its failure); if that line throws none arrives; if no line ends the run the host's word does: the stream's fault, the abort, or a missing terminal. |
| `ClaudeEnding.CompletedIff` | core/src/adapters/claude-code.ts:549-647 | A run ends in run.completed iff the first line that ends it is a result that did not fail, a line before it named the model, and nothing up to it throws. |
| `ClaudePlain.RunSaysPlain` | core/src/adapters/claude-code.ts:549-647 | Where no line throws, nothing was refused for the event cap and no text was cut: what is delivered is exactly the plain reading of the lines, in order (openings, models, texts, tool requests and settlements, notices, usage, terminal), but for the clock notice. |
| `ClaudeTexts.TextIs` | core/src/adapters/stream/output-budget.ts:203-217 | Whatever the lines, limits and end: the text delivered is a prefix of what the lines say before the run ends and, where no event was refused, the longest prefix that fits the byte limit. |
| `ClaudeCourse.FaultTakes` | core/src/adapters/claude-code.ts:577-618 | The first line that throws loses a terminal, and loses run.started, exactly under those two guards. |
| `ClaudeCourse.DecodeInCourse` | core/src/adapters/claude-code-stream.ts:127-201 | Whether a run is over and which model it has named is a function of the lines read so far. |
| `ClaudePromise.EndsOnceIff` | core/src/adapters/claude-code.ts:549-647 | One terminal, and it last, iff no terminal was lost. |
| `ClaudePromise.OpensOnceIff` | core/src/adapters/claude-code.ts:549-647 | run.started once and first iff none was lost. |
| `ClaudePromise.AlwaysBounded` | core/src/adapters/stream/output-budget.ts:157-217 | For every run whatever it loses: usage at most once, text within the byte limit, at most two events past a cap of at least two. |
| `ClaudeRun.ThrowsIff` | core/src/adapters/claude-code-stream.ts:127-505 | Whether a line throws depends on the line alone: a null event, content that cannot be listed, a null block, or a failed result whose subtype has no text. |
| `ClaudeRun.LostIsWhatTheFaultStamped` | core/src/adapters/claude-code.ts:577-618 | Nothing is lost where no line throws; otherwise the events lost are exactly those the first line that throws had stamped. |
| `ClaudeRun.SoundLinesAreWellFormed` | core/src/adapters/claude-code.ts:549-647 | A run none of whose lines throws is always well-formed. |
| `ClaudeRun.FirstLineFault` | core/src/adapters/claude-code.ts:577-618 | Concrete case outside the condition: a first line that throws after opening the run loses run.started. |
| `ClaudeRun.TerminalLost` | core/src/adapters/claude-code.ts:594-618 | Concrete case outside the condition: a line that throws after the decoder ended the run leaves it with no terminal. |
| `ClaudeCap.CapIsPassedIff` | core/src/adapters/stream/output-budget.ts:157-190 | A run stamps more events than its cap iff the cap is below two or, at some event, naming the model or noting the clock was charged while the events so far and everything owed already filled the cap. |
| `ClaudeCap.PastCapIff` | core/src/adapters/stream/output-budget.ts:157-190 | The same for any finished sequence of events whose slots were paid for. |
| `ClaudeCap.CapIsPassed` | core/src/adapters/stream/output-budget.ts:157-190 | A run of two lines under a cap of two that passes it by two, the most there can be. |
| `Validation.ValidateEventSequence` | core/src/contracts/normalized-events.ts:285-361 | No violation is reported exactly when the run is well-formed. |
| `LineFraming.LineFramer.Push` | core/src/adapters/stream/line-framer.ts:68-84 | A chunk of bytes or text, its characters completed by what the decoder held, yields the lines closed since the last one, the unterminated rest waiting. |
| `LineFraming.FrameAll` | core/src/adapters/stream/line-framer.ts:44-98 | The lines framed from any chunks are the lines of the text the chunks are. |
| `LineFraming.CutsDoNotShow` | core/src/adapters/stream/line-framer.ts:33-36 | Wherever bytes were cut, inside a character or not, well-formed or not, the text is that of all bytes together. |
| `LineFraming.EncodedFrames` | core/src/adapters/stream/line-framer.ts:67-91 | A text encoded in UTF-8 and cut anywhere frames as the text itself, less one byte order mark in front. |
| `Utf8Reader.DecodedIsText` | core/src/adapters/stream/line-framer.ts:74-87 | The streaming decoder undoes the encoding on every text, but for that mark. |
| `LineFraming.FramingIsLossless` | core/src/adapters/stream/line-framer.ts:68-93 | Lines with their newlines and the rest make up the text again. |

## Left out

- ClosureSafe.WrittenTreeIsAccepted: asks that no status value holds `<` and that no two proposed tickets share a number; the first is shown needed on one text (ValueReadsAsTask.WritingLosesTheTask), not on every one; the second exactly for one token named twice (ClosureTwice.TwiceIff) and on one tree (TwoTickets.TwoTicketsSpoil).
- AskedSame.AsksUnchanged: asks that values hold no `<`, `]` or line break; NewlineInValue.WritingChangesTheRow is one plan task that needs it, and some plans with such values keep their rows all the same.
- RouteRows.RecommendationAgreesWithVerdicts: asks that the best eligible route is priced, which is when the two sides mean the same best route (RouteFrontier.SameBestIff); on some rows they agree without it.
- ClosureRebuilt.AcceptedRebuilds: asks that changed plans hold no `<` in their values and that their tokens are told apart; the second is exact for one plan (ClosureRebuilt.AmbiguousIff).
- ClosureRules.PlanSays: asks that neither text holds a `<` in a value, as the rescanning it rests on does.
- LabelRule.LabelIs: asks that no two requests share an id; the source keeps its labels in a map by id, so two requests of one id get one answer between them.
- RouteVerdicts.CheapestIsNeverOverkill: asks for a price above zero; a free route is undercut by any other free one, by the code's own ratio.
- ClaudePlain.RunSaysPlain: asks that no line throws, nothing was refused for the event cap and no text was cut; what those do is ClaudeCourse.FaultTakes, BudgetSlots.OfferedIff and ClaudeTexts.TextIs, not one reading of the lines.
- AskCompare.UnchangedIff: compares asks already extracted; extraction reads YAML and the plan's identifier spine, which are parameters here.
- Reading a plan's identifier spine and `serves` codes, ticket bodies and frontmatter fields other than id and state: regular expressions and YAML, taken as fields.
- File contents are text or not text: the UTF-8 round trip of `core/src/closure/tree.ts` is that distinction, and byte offsets and contexts of refusals are not modelled.
- A violated agreement is reported at a plan path, which is not modelled, nor is the display text of a proposed row.
- A ticket id whose tail is empty or not all digits is unresolved here; how JavaScript coerces such a tail to a number is not modelled.
- Strings are sequences of Unicode scalar values: lone surrogates, on which percent-encoding throws, and ordering by UTF-16 unit rather than by character are not modelled, and a label's width counts characters.
- JSON numbers are known by the text they print as; that printing is injective on finite numbers is not modelled, nor is a failure to print values nested too deep.
- Connection and member keys are their fields rather than joined texts, which is the same unless an id holds `|` or `+`.
- The order of board sections and members by newest run, the labels, regions and exact weights the graph shows for pairs and proving grounds.
- The other frontier axes (clean, not blocked, landed, median minutes) differ only in which counts feed the same interval.
- How a prior is found for a route; here it is looked up by route key.
- Where a hub is drawn: of a hub only the room it takes above its region's first row is modelled.
- Which families a graph has: the families of replays are the input of the drawing.
- The physics of ordinary nodes, which has no guarantee beyond pinned nodes staying put.
- Floating-point rounding everywhere, the tolerance of the depth classes, logarithmic ticks.
- Timeline items keyed by id: blocks are listed in start order, which is the same where ids differ.
- Message texts, durations, images, session records and provider clocks of stream events, except a clock's going backwards or being unreadable.
- Comparing host clocks when a run starts: the decoder passes none.
- The Codex route, whose run has the same shape as the Claude one.
- The lifecycle and phase machines, the journal, process launching, HTTP, SQLite and command dispatch: no property of these spans the modelled parts.
- The canvas view codec, which rounds the camera and escapes nothing, so it has no round trip to prove.
