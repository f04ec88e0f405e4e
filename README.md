# Ticket-Agent, modelled in Dafny

Ticket-Agent submits a support ticket (email, subject, description, optional
category and priority) into third-party web forms through a browser. This
project models its decision logic and proves what that logic promises:

- **the generic adapter** (`FieldDetector`, `GenericAdapter`). It scores scraped
  form elements against a pattern set and picks the first best element. It
  normalises the field type, builds CSS selectors, finds the submit button
  from ordered templates with a never-empty fallback, fills the detected
  fields, and classifies success by a URL change or a keyword.
- **the lifecycle controller** (`AdapterActions`, `BaseAdapter`).
  `execute` runs goto, detect, fill, submit and verify in order and turns any
  fault into a failed result. `tryMultipleSelectors` is the "first selector
  that works" loop. `waitAndFill`/`waitAndClick` wait before they act.
- **the Freshdesk adapter** (`FreshdeskAdapter`): a fixed mapping, the
  priority table, and ticket-number extraction for the pattern `#(\d+)`.
- **the orchestrator** (`Agent`). It covers the platform URL table, the step
  executor and the success test on the page content (regular expressions with
  the `i` flag). It also covers `submitToPlatform`, whose page is closed in a
  `finally`, and `submitTicket`, which visits platforms one after another and
  keeps each failure apart.
- **the action planner** (`ActionPlanner`): the ordered step list built from a
  mapping and a ticket.
- **the retry handler** (`Retry`): attempts with geometric backoff.
- **the screenshot handler** (`Screenshots`): the file name built from a
  sanitised timestamp, and screenshot comparison.

The browser is a value (`Browser.Page`). It holds:

- what the page shows: URL, content, the selectors that resolve, element
  texts, the scraped elements and the screenshot image;
- a fault oracle naming the calls that throw, and with which message;
- an effect oracle for calls that change the page;
- the log of every call made so far.

A call that needs an element throws a timeout when the selector does not
resolve. An exception is an `Outcome` (`Ok` or `Thrown(message)`). Every page
operation returns the outcome together with the next page, and properties
about "which calls were made, in which order" are stated on the log.

Straight-line code is written as functions over the page. The source's
loops, its step-list pushes and its try/finally are methods, each proved
equal to a specification function:

- the score accumulation of `findField`;
- `findSubmitButton` and `tryMultipleSelectors`;
- the step pushes of `createPlan`, and the step loop of `executePlan`;
- the try/finally of `submitToPlatform`, and the platform loop of `submitTicket`;
- `RetryHandler.execute`.

The best-element choice of `findField` is a stable sort in the source. Here it
is the function `FirstMax`, which gives the sort's first element.

The handlers' fields are `const` fields of Dafny classes, set by their
constructors.

Files: `wrappers.dfy`, `strings.dfy`, `models.dfy`, `browser.dfy`,
`adapter_actions.dfy`, `field_detector.dfy`, `generic_adapter.dfy`,
`freshdesk_adapter.dfy`, `base_adapter.dfy`, `action_planner.dfy`,
`agent.dfy`, `retry_handler.dfy`, `screenshot_handler.dfy`.

Where the specification and the code disagree, the model follows the code:

- **No pattern set.** A field name without a pattern set gets type "text", even
  for "email" and "description".
- **No candidates.** With a pattern set but no candidates, the type is still
  the normalised one (email stays "email").
- **Submit button.** It must exist and dispose without error; visibility is
  not checked.
- **Ticket validation.** The agent does not validate the ticket before
  navigating, so no validation step appears in the model.

## Model

| member | source | states |
|---|---|---|
| Strings.IndexOf | src/adapters/generic-adapter.ts:161 | finds an occurrence exactly when the text contains the pattern, and it is the leftmost one |
| Strings.Split | src/adapters/generic-adapter.ts:162 | `split` always yields at least one piece |
| Strings.SplitJoin | src/adapters/generic-adapter.ts:162 | joining the pieces of a split with the separator gives back the original string |
| Strings.SplitPiecesAvoid | src/adapters/generic-adapter.ts:66 | no piece of a split on a character contains that character |
| Strings.SplitAllEmpty | src/adapters/generic-adapter.ts:66-67 | every piece is empty exactly when the string consists of the separator only |
| Strings.ReplaceFirst | src/adapters/generic-adapter.ts:165-166 | `replace` with a string pattern replaces the leftmost occurrence only, and leaves a string without the pattern unchanged |
| Strings.ToLower | src/adapters/generic-adapter.ts:130-133 | lowercasing keeps the length and maps every character on its own |
| Strings.ToLowerIdempotent | src/adapters/generic-adapter.ts:298-300 | lowercasing twice is lowercasing once |
| Strings.ToLowerAppend | src/core/agent.ts:147-149 | lowercasing distributes over concatenation |
| Strings.MatchesLower | src/core/agent.ts:147-149 | an occurrence stays an occurrence after both sides are lowercased |
| Strings.NatToString | src/utils/retry-handler.ts:27-31 | the decimal rendering of a count is non-empty and all digits |
| Models.FailedResult | src/adapters/base-adapter.ts:41-46 | a failed result is unsuccessful, carries the error and platform, and nothing else |
| Browser.Perform | src/core/agent.ts:118-134 | a page call is appended to the log; it throws exactly when the fault oracle names it; a throw or a read leaves the screen unchanged |
| Browser.Read | src/core/agent.ts:147 | a read returns the page's value exactly when it does not throw |
| Browser.IssuedCount | src/adapters/freshdesk-adapter.ts:47-76 | a call sequence issues at least one call when non-empty, and never more than it holds |
| Browser.RunCallsInOrder | src/adapters/freshdesk-adapter.ts:47-76 | awaited calls are issued as a prefix of the list: all of them on success, at least the throwing one otherwise |
| Browser.RunCallsAppend | src/adapters/freshdesk-adapter.ts:47-76 | awaiting one list of calls and then another is awaiting their concatenation |
| Browser.RunCallsStable | src/adapters/freshdesk-adapter.ts:47-76 | when no call changes the screen, the calls succeed iff none faults on the page, and a throw is the first faulting call's message |
| Browser.CountCallsAppend | src/core/agent.ts:84-86 | counting a call over two stretches of log adds up |
| Browser.AvoidsTransitive | src/core/agent.ts:60-83 | "no close in between" composes across consecutive stretches |
| AdapterActions.WaitAndFill | src/adapters/base-adapter.ts:50-58 | waits for the selector and then fills; a failed wait propagates and stops the fill |
| AdapterActions.WaitAndFillCalls | src/adapters/base-adapter.ts:50-58 | `waitAndFill` is the wait and the fill awaited in order |
| AdapterActions.WaitAndClick | src/adapters/base-adapter.ts:60-67 | waits for the selector and then clicks; a failed wait propagates and stops the click |
| AdapterActions.Attempt | src/adapters/base-adapter.ts:76-88 | one loop turn never throws: a thrown lookup or action is caught |
| AdapterActions.AttemptFacts | src/adapters/base-adapter.ts:76-88 | a turn returns true exactly when the selector succeeds (found, and the action, if any, does not throw), and issues the lookup then the action |
| AdapterActions.FirstWhere | src/adapters/base-adapter.ts:75-85 | the position found is the first one satisfying the test, or none satisfies it |
| AdapterActions.TakeThroughPrefix | src/adapters/base-adapter.ts:75-85 | the entries visited are those up to the first success, or all of them |
| AdapterActions.FirstSuccess | src/adapters/base-adapter.ts:75-85 | the first selector that succeeds, and none before it does |
| AdapterActions.TriedPrefix | src/adapters/base-adapter.ts:75-85 | selectors after the first success are never touched |
| AdapterActions.TrySelectors | src/adapters/base-adapter.ts:69-91 | `tryMultipleSelectors` never throws |
| AdapterActions.TrySelectorsFirstSuccess | src/adapters/base-adapter.ts:75-90 | the loop returns true exactly when some selector succeeds, false for none or an empty list |
| AdapterActions.TrySelectorsLog | src/adapters/base-adapter.ts:75-90 | the calls issued are, in order, those of each selector tried up to the first success |
| AdapterActions.TryMultipleSelectors | src/adapters/base-adapter.ts:69-91 | the loop equals its specification, never throws, and returns true iff some selector succeeds |
| FieldDetector.NonEmptyPieces | src/adapters/generic-adapter.ts:66 | the filter keeps only non-empty pieces and is empty iff every piece is |
| FieldDetector.NonEmptyPiecesAppend | src/adapters/generic-adapter.ts:66 | the filter distributes over concatenation, so it keeps every non-empty piece in order |
| FieldDetector.NonEmptyPiecesSingle | src/adapters/generic-adapter.ts:66 | a single piece is kept iff it is non-empty |
| FieldDetector.NonEmptyPiecesKeepsAll | src/adapters/generic-adapter.ts:66 | a list of non-empty pieces passes the filter unchanged |
| FieldDetector.ClassTokens | src/adapters/generic-adapter.ts:65-67 | class tokens are non-empty and space-free, and there are none iff the class text is spaces only |
| FieldDetector.SingleSpacedPieces | src/adapters/generic-adapter.ts:66 | splitting class text with no leading, trailing or doubled space leaves no empty piece |
| FieldDetector.ClassTokensWords | src/adapters/generic-adapter.ts:65-67 | for such class text the tokens joined by spaces give back the text: every class, in order |
| FieldDetector.GenerateSelector | src/adapters/generic-adapter.ts:63-74 | `#id` for an id; else `.a.b` for non-blank classes; else the name or tag selector; never empty for a tag |
| FieldDetector.ToFormElement | src/adapters/generic-adapter.ts:82-96 | a scraped element keeps its lowercase tag and its type, name, id, class, placeholder and aria-label values, gets its generated selector, and keeps its required and visible flags |
| FieldDetector.AnalyzeFormStructure | src/adapters/generic-adapter.ts:77-97 | one form element per scraped element, in DOM order |
| FieldDetector.GetElementAttribute | src/adapters/generic-adapter.ts:181-199 | type, name, id, class and placeholder return the element's type, name, id, class and placeholder; anything else is null |
| FieldDetector.MatchesPattern | src/adapters/generic-adapter.ts:160-179 | `matchesPattern`: a `*=` substring test after stripping the first `[` and `]`, else an exact `=` comparison, else false; its behaviour is stated by MatchesContainsPattern, MatchesEqualsPattern, TwoSeparatorsNeverMatch and BracketedEqualsNeverMatches |
| FieldDetector.MatchesPatternNeedsEquals | src/adapters/generic-adapter.ts:160-179 | a matching pattern contains "="; a `*=` match has exactly one separator |
| FieldDetector.MatchesContainsPattern | src/adapters/generic-adapter.ts:160-170 | `a*=v` with one separator matches iff the attribute named by `a` without its first `[` is truthy and contains `v` without its first `]`, case-sensitively |
| FieldDetector.MatchesEqualsPattern | src/adapters/generic-adapter.ts:171-177 | `a=v` with no `*=` and one `=` matches iff the attribute named by `a` is present and equals `v` exactly |
| FieldDetector.TwoSeparatorsNeverMatch | src/adapters/generic-adapter.ts:160-179 | two separators of the branch taken (`*=`, or `=` without `*=`) never match |
| FieldDetector.BracketedEqualsNeverMatches | src/adapters/generic-adapter.ts:171-177 | a `[attr=value]` pattern without `*=` never matches, because the bracket is not stripped |
| FieldDetector.CountHits | src/adapters/generic-adapter.ts:124-141 | at most one hit per pattern, duplicates counted each time |
| FieldDetector.CountHitsAppend | src/adapters/generic-adapter.ts:124-141 | hits over concatenated pattern lists add up |
| FieldDetector.CountHitsMonotone | src/adapters/generic-adapter.ts:124-141 | an element satisfying more patterns has at least as many hits |
| FieldDetector.Score | src/adapters/generic-adapter.ts:120-147 | the score is non-negative and bounded by 3, 2, 2 per pattern plus 1 |
| FieldDetector.ScoreMonotone | src/adapters/generic-adapter.ts:120-147 | an element satisfying every listed pattern another does, with at least its tag bonus, scores at least as high |
| FieldDetector.ScoreExtraAttribute | src/adapters/generic-adapter.ts:124-126 | each further matching attribute pattern adds exactly 3 |
| FieldDetector.AddHits | src/adapters/generic-adapter.ts:124-141 | the `forEach` loop adds weight times the number of hits |
| FieldDetector.ScoreElement | src/adapters/generic-adapter.ts:120-147 | the per-element loops compute the score |
| FieldDetector.Scores | src/adapters/generic-adapter.ts:120-147 | one score per element, in order |
| FieldDetector.FirstMax | src/adapters/generic-adapter.ts:150-151 | the stable descending sort's head is a maximum with every earlier element strictly smaller |
| FieldDetector.MapFieldType | src/adapters/generic-adapter.ts:201-209 | description gives textarea, email gives email, otherwise `select-one` gives select, else text (each iff) |
| FieldDetector.DetectField | src/adapters/generic-adapter.ts:104-158 | no pattern set gives ("", text, false); no element gives "" with the normalised type; otherwise the first highest-scoring element, with no threshold |
| FieldDetector.DetectFieldNeverEmptyOnElements | src/adapters/generic-adapter.ts:150-157 | with a pattern set, the selector is "" exactly when there are no elements |
| FieldDetector.FindField | src/adapters/generic-adapter.ts:104-158 | the scoring and sorting code equals `DetectField` |
| GenericAdapter.Templates | src/adapters/generic-adapter.ts:221-225 | three non-empty templates per text |
| GenericAdapter.ButtonCandidates | src/adapters/generic-adapter.ts:219-225 | three non-empty candidates per text, in text order |
| GenericAdapter.Probe | src/adapters/generic-adapter.ts:228-237 | a probe never throws and leaves the screen as it was |
| GenericAdapter.SearchButton | src/adapters/generic-adapter.ts:219-242 | the search never throws and leaves the screen as it was |
| GenericAdapter.SubmitButtonFor | src/adapters/generic-adapter.ts:211-243 | `findSubmitButton` never throws |
| GenericAdapter.FirstResolving | src/adapters/generic-adapter.ts:219-239 | the first candidate that resolves, and none before it does |
| GenericAdapter.ProbeResolves | src/adapters/generic-adapter.ts:228-237 | a probe succeeds exactly when the element exists and disposes without error |
| GenericAdapter.SearchButtonFirst | src/adapters/generic-adapter.ts:219-242 | the search returns the first resolving candidate, or the fallback |
| GenericAdapter.SubmitButtonChoice | src/adapters/generic-adapter.ts:211-243 | the result is never empty; without texts it is the fallback and no call is made; otherwise the first resolving template or the fallback |
| GenericAdapter.FindSubmitButton | src/adapters/generic-adapter.ts:211-243 | the nested loops equal the specification and never yield an empty selector |
| GenericAdapter.ProbeTemplates | src/adapters/generic-adapter.ts:227-238 | the inner loop either ends the search with its find or hands the rest of the search on |
| GenericAdapter.DetectForm | src/adapters/generic-adapter.ts:44-58 | throws only if scraping does; email, subject and description detected from the same elements; the submit selector is `findSubmitButton`'s choice on the page after the scrape, never empty; fixed indicators |
| GenericAdapter.LookupsAppend | src/adapters/generic-adapter.ts:245-275 | the lookups of two stretches of log add up |
| GenericAdapter.AttemptLookups | src/adapters/generic-adapter.ts:250-255 | one attempt looks its selector up exactly once |
| GenericAdapter.FillDetected | src/adapters/generic-adapter.ts:249-256 | a field with an empty or missing selector is skipped; otherwise exactly one attempt is made, starting with the lookup |
| GenericAdapter.FillDetectedLookups | src/adapters/generic-adapter.ts:249-256 | a field is looked up exactly when its selector is non-empty |
| GenericAdapter.FillFields | src/adapters/generic-adapter.ts:249-274 | the fills only add calls to the page |
| GenericAdapter.FillFieldsOrder | src/adapters/generic-adapter.ts:249-274 | the fills look up the non-empty email, subject and description selectors, in that order |
| GenericAdapter.FillForm | src/adapters/generic-adapter.ts:245-275 | `fillForm` throws exactly when detection does: a missing element never aborts it |
| GenericAdapter.FillFormOrder | src/adapters/generic-adapter.ts:245-275 | after detection the fill looks up exactly the non-empty selectors, email then subject then description |
| GenericAdapter.SubmitForm | src/adapters/generic-adapter.ts:277-281 | succeeds iff neither the wait for the found button, its click nor the 3000 wait faults, rethrowing the first fault; on success those are the last three calls |
| GenericAdapter.HasSuccessKeyword | src/adapters/generic-adapter.ts:291-300 | some of "thank", "success", "submitted", "received", "confirmation" occurs in the lowercased content; VerifySubmission states success in terms of it |
| GenericAdapter.VerifySubmission | src/adapters/generic-adapter.ts:283-311 | success iff the URL changed or the lowercased content has a keyword; confirmation iff success, error iff not; platform "generic" |
| FreshdeskAdapter.DetectForm | src/adapters/freshdesk-adapter.ts:11-45 | detection is constant and touches nothing |
| FreshdeskAdapter.MappingShape | src/adapters/freshdesk-adapter.ts:11-45 | the whole constant mapping: four `#helpdesk_ticket_` fields with their types, all but priority required; platform, portal URL, the submit selector and the three indicators |
| FreshdeskAdapter.PriorityValue | src/adapters/freshdesk-adapter.ts:67-74 | low, high and urgent give "1", "3" and "4", and "2" is given exactly for medium or any unknown priority |
| FreshdeskAdapter.FillCalls | src/adapters/freshdesk-adapter.ts:47-76 | wait-and-fill email, subject, description, then a priority select iff a priority is given |
| FreshdeskAdapter.FillForm | src/adapters/freshdesk-adapter.ts:47-76 | three `waitAndFill` stages and the optional select are `FillCalls` awaited in order: a prefix is issued, all of it on success, at least the throwing call otherwise |
| FreshdeskAdapter.FillFormCalls | src/adapters/freshdesk-adapter.ts:47-76 | the `waitAndFill` stages issue exactly the flattened `FillCalls`, stopping at the first fault |
| FreshdeskAdapter.FillFormFaults | src/adapters/freshdesk-adapter.ts:47-76 | when no fill or select changes the screen, it succeeds iff no call faults, and a throw is the first faulting call's message |
| FreshdeskAdapter.SubmitForm | src/adapters/freshdesk-adapter.ts:79-82 | wait for and click `input[type="submit"]`, then wait 3000; succeeds iff none of the three faults, rethrowing the first fault |
| FreshdeskAdapter.DigitsFrom | src/adapters/freshdesk-adapter.ts:110 | the digit run is maximal |
| FreshdeskAdapter.FirstMark | src/adapters/freshdesk-adapter.ts:110 | the leftmost "#" followed by a digit |
| FreshdeskAdapter.ExtractTicketId | src/adapters/freshdesk-adapter.ts:109-112 | undefined iff no "#" is followed by a digit; otherwise the maximal digit run after the leftmost such "#" |
| FreshdeskAdapter.ExtractRenderedNumber | src/adapters/freshdesk-adapter.ts:109-112 | a number rendered after the first "#" is extracted back unchanged |
| FreshdeskAdapter.VerifySubmission | src/adapters/freshdesk-adapter.ts:84-107 | never throws; success iff the wait and the read both succeed; the notice text or the default; the ticket id from the notice |
| BaseAdapter.Platform | src/adapters/base-adapter.ts:10-13 | "generic" or "freshdesk", as the subclass constructor passes |
| BaseAdapter.Url | src/adapters/base-adapter.ts:10-13 | the configured URL, or the Freshdesk portal |
| BaseAdapter.RunStage | src/adapters/base-adapter.ts:24-33 | a stage only adds calls to the page |
| BaseAdapter.SequenceExtends | src/adapters/base-adapter.ts:22-36 | running stages in order only adds calls |
| BaseAdapter.SequenceStopsAtFault | src/adapters/base-adapter.ts:22-36 | a failing stage ends the run: no later stage is run |
| BaseAdapter.SequenceCompose | src/adapters/base-adapter.ts:22-36 | stages run one after another, each from the page the previous one left |
| BaseAdapter.RunStages | src/adapters/base-adapter.ts:23-33 | the lifecycle stages only add calls |
| BaseAdapter.StagesStopAtFault | src/adapters/base-adapter.ts:22-36 | a fault in goto, detect, fill or submit prevents every later step |
| BaseAdapter.StagesCompose | src/adapters/base-adapter.ts:23-33 | the stages run in the fixed order goto, detect, fill, submit |
| BaseAdapter.Verify | src/adapters/base-adapter.ts:36 | verification reports the adapter's platform |
| BaseAdapter.Execute | src/adapters/base-adapter.ts:21-47 | never throws; any fault gives a failed result with its message and the platform; otherwise exactly verification's result |
| BaseAdapter.NavigationFaultStopsAll | src/adapters/base-adapter.ts:24 | a failed goto is the only call made and yields the failed result |
| ActionPlanner.FillIfMapped | src/core/action-planner.ts:20-47 | a fill step iff the key is mapped (even with an empty selector), with the ticket's value |
| ActionPlanner.CategoryStep | src/core/action-planner.ts:49-58 | a category step iff the category is truthy and mapped; select iff the field type is select |
| ActionPlanner.MiddleSteps | src/core/action-planner.ts:19-58 | at most four steps between the first wait and the submit |
| ActionPlanner.PlannedSteps | src/core/action-planner.ts:10-72 | 3 to 7 steps: wait 2000 first, then click on the submit button and wait 3000 last |
| ActionPlanner.PlanLength | src/core/action-planner.ts:10-72 | the step count is 3 plus the fields present plus the category step |
| ActionPlanner.PlanOrder | src/core/action-planner.ts:19-47 | email is filled right after the first wait; description comes right before the submit click when there is no category |
| ActionPlanner.PlanFillValues | src/core/action-planner.ts:19-58 | every fill step's value is one of the ticket's own texts |
| ActionPlanner.PlanIgnoresExtras | src/core/action-planner.ts:10-72 | priority, attachments and custom fields never change the plan |
| ActionPlanner.PushFillIfMapped | src/core/action-planner.ts:20-27 | a conditional push appends the fill step iff the key is mapped |
| ActionPlanner.PushCategory | src/core/action-planner.ts:50-58 | the category push appends the category step iff it applies |
| ActionPlanner.PlanReasoning | src/core/action-planner.ts:77 | the reasoning text starts with "Created " and ends with the platform; CreatePlan embeds the step count |
| ActionPlanner.CreatePlan | src/core/action-planner.ts:6-79 | the pushes build the planned steps; the reasoning embeds their count and the platform |
| Agent.GetPlatformUrl | src/core/agent.ts:153-160 | the table entry for a known id, the generic contact URL otherwise, never empty |
| Agent.FreshdeskDemoUrl | src/core/agent.ts:153-160 | the URL table: the Freshdesk demo id maps to the Freshdesk portal, the Typeform demo id to its form, and every other id to the contact URL |
| Agent.SuccessPage | src/core/agent.ts:139-150 | the five case-insensitive success patterns, any of which makes a success; its behaviour is stated by TicketCreatedAt, SuccessFromTicketCreated and NoKeywordNoSuccess |
| Agent.SuccessPageIgnoresCase | src/core/agent.ts:137-151 | the success test does not depend on letter case |
| Agent.TicketCreatedSucceeds | src/core/agent.ts:143 | "Ticket", then anything without a line break, then "CREATED" is a success page |
| Agent.TicketCreatedAt | src/core/agent.ts:143 | "ticket" followed by "created" on the same line, in any case, is a success |
| Agent.SuccessFromTicketCreated | src/core/agent.ts:143 | a ticket/created match on one line makes the page a success |
| Agent.SameLineAt | src/core/agent.ts:143-144 | two words with no line terminator between them match `first.*second` |
| Agent.SameLineContains | src/core/agent.ts:143-144 | a same-line match needs both words in the content |
| Agent.NoKeywordNoSuccess | src/core/agent.ts:137-151 | without any of the keywords or "ticket"/"reference" the page is not a success |
| Agent.VerifySubmission | src/core/agent.ts:137-151 | reads the content, throws iff the read does, and is true iff the content passes the success test |
| Agent.WaitMillis | src/core/agent.ts:128-130 | `value \|\| 1000`: a missing, zero or empty value waits 1000, any other number waits that long |
| Agent.StepCall | src/core/agent.ts:115-135 | fill, select and click act on the target; verify waits 5000 for it; navigate issues nothing; a missing target throws |
| Agent.ExecuteStep | src/core/agent.ts:115-135 | a step issues its call and never closes the page |
| Agent.RunSteps | src/core/agent.ts:96-98 | the step loop never closes the page |
| Agent.ExecuteStepLog | src/core/agent.ts:115-135 | a step that goes through issues exactly its own call |
| Agent.StepsWellFormed | src/core/agent.ts:96-98 | when every step goes through, every step was well formed |
| Agent.StepsRunInOrder | src/core/agent.ts:96-98 | when every step goes through, the page saw exactly their calls in plan order |
| Agent.PlanRun | src/core/agent.ts:89-113 | steps first, then the content read and the screenshot; success is the content test; confirmation iff success; the requested platform |
| Agent.ExecutePlan | src/core/agent.ts:89-113 | the loop over the steps equals `PlanRun` |
| Agent.Visit | src/core/agent.ts:60-83 | navigation to the platform URL comes first and a failed goto is the error; the page is never closed inside |
| Agent.CloseOnce | src/core/agent.ts:84-86 | closing once after a stretch without closes raises the close count by exactly one |
| Agent.SubmitRun | src/core/agent.ts:54-87 | no page means the error and no close; otherwise the page is closed exactly once, as the last call, and a failing close replaces the outcome |
| Agent.NavigationFaultCloses | src/core/agent.ts:60-86 | a failed goto still closes the page: goto then close, and the goto's error is reported |
| Agent.SubmitToPlatform | src/core/agent.ts:54-87 | the try/finally code equals `SubmitRun` |
| Agent.ResultFor | src/core/agent.ts:36-48 | a thrown platform becomes a failed result carrying its error and platform; otherwise its own result |
| Agent.SubmitTicket | src/core/agent.ts:29-52 | one result per platform, in order, each decided by that platform and its own page alone; each page closed as `SubmitRun` says |
| Retry.Backoff | src/utils/retry-handler.ts:18 | the k-th delay is `delayMs * multiplier^k` |
| Retry.BackoffGeometric | src/utils/retry-handler.ts:40-41 | each delay is the previous one times the multiplier |
| Retry.DefaultSchedule | src/utils/retry-handler.ts:6-10 | the default schedule sleeps 1000 and then 2000 |
| Retry.FirstOk | src/utils/retry-handler.ts:20-23 | the first attempt that returns, with all earlier ones throwing |
| Retry.FailureMessage | src/utils/retry-handler.ts:26-32 | "Failed after N attempts", with " (ctx)" only for a truthy context, then ": " and the last message |
| Retry.FailureMessageParts | src/utils/retry-handler.ts:26-32 | the message starts with "Failed after " and ends with ": " and the last error's message |
| Retry.RetryHandler.constructor | src/utils/retry-handler.ts:6-14 | defaults 3, 1000 and 2 |
| Retry.RetryHandler.Execute | src/utils/retry-handler.ts:16-46 | at most `maxRetries` calls; the first success is returned with no further calls; after all fail, the failure message; sleeps only between attempts; no call at all when `maxRetries <= 0` |
| Retry.FirstOkAt | src/utils/retry-handler.ts:20-23 | the first attempt that returns is found |
| Retry.NoneOk | src/utils/retry-handler.ts:20-32 | when every attempt throws, none is found |
| Screenshots.SanitizeTimestamp | src/utils/screenshot-handler.ts:13 | same length; ':' and '.' become '-'; every other character stays in place |
| Screenshots.SanitizeIdempotent | src/utils/screenshot-handler.ts:13 | sanitising twice is sanitising once |
| Screenshots.SanitizeAppend | src/utils/screenshot-handler.ts:13 | sanitising works character by character over concatenation |
| Screenshots.SanitizeUnchanged | src/utils/screenshot-handler.ts:13 | a timestamp is unchanged iff it has no ':' or '.' |
| Screenshots.FileName | src/utils/screenshot-handler.ts:14 | name, "_", the sanitised timestamp, ".png" |
| Screenshots.FileNameDistinguishes | src/utils/screenshot-handler.ts:13-14 | two timestamps give the same file name iff they sanitise alike |
| Screenshots.ScreenshotHandler.constructor | src/utils/screenshot-handler.ts:8-10 | the directory defaults to "./screenshots" |
| Screenshots.ScreenshotHandler.Capture | src/utils/screenshot-handler.ts:12-24 | takes one screenshot, throws iff it does, and names the file from the name and timestamp |
| Screenshots.CompareScreenshots | src/utils/screenshot-handler.ts:34-37 | changed iff the two screenshots differ |
| Screenshots.CompareSymmetric | src/utils/screenshot-handler.ts:34-37 | the comparison is symmetric and a screenshot never differs from itself |

## Left out

- **Playwright.** Playwright calls are abstract `Call`s on the page value, and their effects come from oracles. Real networking, rendering, the DOM and timing are not modelled.
- **DOM scraping.** The in-browser scrape in `analyzeFormStructure` and `DOMAnalyzer.analyzePage` is an `Evaluate` call, and the page supplies the elements it returns. Visibility is carried but, as in the source, never used.
- **The form analyzer.** The LLM form analyzer (`LLMAnalyzer.analyzeForm`) is a function parameter that may throw. The browser controller's `newPage` is a parameter `nat -> Outcome<Page>` giving the i-th page.
- **Pattern configuration.** `config/selectors.json` is not part of this model. The pattern sets are a parameter (`SelectorsConfig`).
- **Letter case.** Lowercasing and the regular expressions' `i` flag cover ASCII letters only. Unicode case folding is not modelled.
- **Sorting.** `findField`'s in-place stable sort is modelled by its only observable effect: the first element of maximal score.
- **Error messages.** The argument checks Playwright makes on a missing target or a non-string value are one message, `InvalidArgument`. The exact Playwright error texts are oracle values.
- **Wait values.** Steps carry wait values as integers, so a non-integer wait value is not modelled.
- **Non-Error throws.** `String(error)` for a thrown non-Error, and a thrown non-Error's `message`, are not modelled. Every fault carries a string message.
- **Time and floats.** Timestamps (`new Date()`), the plan's confidence 0.85, and real sleeping are left out. Retry delays are integers, so fractional retry parameters are not modelled.
- **Console output.** Logging (`Logger`, `console.log`) and the CLI entry point are left out.
- **Agent lifecycle.** The agent's constructor, `initialize` and `shutdown` only launch and close the browser. They are not part of this model.
- **Validation.** Ticket validation (`src/utils/validation.ts`, via zod) is not part of this model. The agent never calls it before navigating.
- **Prototype keys.** The URL table is a three-key map, so JavaScript prototype keys such as "toString" are not modelled.
- **Screenshot files.** `captureBase64` and the file write in `capture` are left out. Screenshot bytes are an opaque string.
- Screenshots.ScreenshotHandler.Capture: returns the file name rather than `path.join(screenshotDir, filename)`, because path normalisation is not modelled.
- FreshdeskAdapter.FillFormFaults: names the throwing call only when no fill or select moves the page to another screen. Otherwise the outcome is stated through `RunCalls` over the pages in between.
