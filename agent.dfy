/**
 * The universal agent: for each requested platform it opens a page,
 * navigates to the platform's URL, scrapes the form, asks the analyzer for
 * a field mapping, plans and runs the steps, checks the page for signs of
 * success and takes a screenshot, and always closes the page. A platform
 * that fails yields a failed result; the others are unaffected.
 */
module Agent {
  import opened Wrappers
  import opened Strings
  import opened Models
  import opened Browser
  import ActionPlanner
  import FreshdeskAdapter

  // ---------------------------------------------------------------- platform URLs

  const DefaultPlatform := "generic_contact"

  /** The built-in URL table. */
  const UrlTable: map<string, string> := map[
    "freshdesk_demo" := "https://demo.freshdesk.com/support/tickets/new",
    "typeform_demo" := "https://form.typeform.com/to/demo123",
    DefaultPlatform := "https://example.com/contact"]

  /** `getPlatformUrl`: the platform's own URL, or the generic contact URL for an unknown name. */
  function GetPlatformUrl(platform: string): (url: string)
    ensures platform in UrlTable ==> url == UrlTable[platform]
    ensures platform !in UrlTable ==> url == UrlTable[DefaultPlatform]
    ensures url in UrlTable.Values && url != ""
  {
    if platform in UrlTable && UrlTable[platform] != "" then UrlTable[platform] else UrlTable[DefaultPlatform]
  }

  /** The Freshdesk demo entry is the very portal the Freshdesk adapter fills in. */
  lemma FreshdeskDemoUrl()
    ensures GetPlatformUrl("freshdesk_demo") == FreshdeskAdapter.PortalUrl
    ensures GetPlatformUrl("typeform_demo") == "https://form.typeform.com/to/demo123"
    ensures forall name :: name !in {"freshdesk_demo", "typeform_demo"} ==> GetPlatformUrl(name) == "https://example.com/contact"
  {
  }

  // ---------------------------------------------------------------- success check

  /** The characters a regular expression's `.` does not match. */
  predicate IsLineTerminator(c: char)
  {
    c == '\n' || c == '\r' || c == '\U{2028}' || c == '\U{2029}'
  }

  /** No line terminator in `s[from..to]`. */
  predicate NoLineBreak(s: string, from: nat, to: nat)
  {
    forall k :: from <= k < to && k < |s| ==> !IsLineTerminator(s[k])
  }

  /** The regular expression `first.*second` matches somewhere in `s`. */
  predicate SameLine(s: string, first: string, second: string)
  {
    exists i: nat, j: nat :: (i <= |s| && j <= |s| && MatchesAt(s, first, i) && MatchesAt(s, second, j)
      && i + |first| <= j && NoLineBreak(s, i + |first|, j))
  }

  /**
   * The success patterns, each matched case-insensitively against the page
   * content: three plain phrases and two `word.*word` expressions.
   */
  predicate SuccessPage(content: string)
  {
    var lc := ToLower(content);
    || Contains(lc, "thank you")
    || Contains(lc, "submitted")
    || Contains(lc, "received")
    || SameLine(lc, "ticket", "created")
    || SameLine(lc, "reference", "number")
  }

  /** The check ignores letter case. */
  lemma SuccessPageIgnoresCase(content: string)
    ensures SuccessPage(ToLower(content)) == SuccessPage(content)
  {
    ToLowerIdempotent(content);
  }

  /**
   * "Ticket", anything without a line break, then "CREATED" is a success,
   * whatever surrounds it.
   */
  lemma TicketCreatedSucceeds(before: string, middle: string, after: string)
    requires forall k :: 0 <= k < |middle| ==> !IsLineTerminator(middle[k])
    ensures SuccessPage(before + "Ticket" + middle + "CREATED" + after)
  {
    var pre := before + "Ticket";
    var post := "CREATED" + after;
    var text := pre + middle + post;
    assert text == before + "Ticket" + middle + "CREATED" + after;
    var i := |before|;
    var j := |pre| + |middle|;
    assert text[i..i + 6] == "Ticket" by {
      assert text[..|pre|] == pre;
    }
    assert text[j..j + 7] == "CREATED" by {
      assert text[j..] == post;
    }
    forall k | i + 6 <= k < j
      ensures !IsLineTerminator(text[k])
    {
      assert text[k] == middle[k - |pre|];
    }
    TicketCreatedAt(text, i, j);
  }

  /** "Ticket" at `i`, "CREATED" at `j` and no line break between them make a success page. */
  lemma TicketCreatedAt(text: string, i: nat, j: nat)
    requires MatchesAt(text, "Ticket", i) && MatchesAt(text, "CREATED", j) && i + 6 <= j
    requires forall k :: i + 6 <= k < j ==> !IsLineTerminator(text[k])
    ensures SuccessPage(text)
  {
    var lc := ToLower(text);
    LowerWords();
    MatchesLower(text, "Ticket", i);
    MatchesLower(text, "CREATED", j);
    forall k | i + 6 <= k < j
      ensures !IsLineTerminator(lc[k])
    {
      assert lc[k] == LowerChar(text[k]);
    }
    SameLineAt(lc, "ticket", "created", i, j);
    SuccessFromTicketCreated(text);
  }

  lemma LowerWords()
    ensures ToLower("Ticket") == "ticket" && ToLower("CREATED") == "created"
  {
    LowerTicket();
    LowerCreated();
  }

  lemma LowerTicket()
    ensures ToLower("Ticket") == "ticket"
  {
    forall k | 0 <= k < 6
      ensures ToLower("Ticket")[k] == "ticket"[k]
    {
    }
  }

  lemma LowerCreated()
    ensures ToLower("CREATED") == "created"
  {
    forall k | 0 <= k < 7
      ensures ToLower("CREATED")[k] == "created"[k]
    {
    }
  }

  lemma SuccessFromTicketCreated(content: string)
    requires SameLine(ToLower(content), "ticket", "created")
    ensures SuccessPage(content)
  {
  }

  /** A witness for `first.*second`. */
  lemma SameLineAt(s: string, first: string, second: string, i: nat, j: nat)
    requires MatchesAt(s, first, i) && MatchesAt(s, second, j) && i + |first| <= j
    requires forall k :: i + |first| <= k < j ==> !IsLineTerminator(s[k])
    ensures SameLine(s, first, second)
  {
    assert i <= |s| && j <= |s| && NoLineBreak(s, i + |first|, j);
  }

  /** A `first.*second` match contains both words. */
  lemma SameLineContains(s: string, first: string, second: string)
    ensures SameLine(s, first, second) ==> Contains(s, first) && Contains(s, second)
  {
  }

  /** A page naming none of the pattern words, in any case, is not a success. */
  lemma NoKeywordNoSuccess(content: string)
    requires var lc := ToLower(content);
      !Contains(lc, "thank you") && !Contains(lc, "submitted") && !Contains(lc, "received")
      && !Contains(lc, "ticket") && !Contains(lc, "reference")
    ensures !SuccessPage(content)
  {
    SameLineContains(ToLower(content), "ticket", "created");
    SameLineContains(ToLower(content), "reference", "number");
  }

  /** `verifySubmission`: reads the page content and applies the success check. */
  function VerifySubmission(p: Page): (r: Act<bool>)
    ensures r.page == Perform(p, Content).page
    ensures r.out.Thrown? <==> FaultOf(p, Content).Some?
    ensures r.out.Ok? ==> (r.out.value <==> SuccessPage(p.screen.content))
  {
    var c := ReadContent(p);
    if c.out.Thrown? then Act(Thrown(c.out.message), c.page) else Act(Ok(SuccessPage(c.out.value)), c.page)
  }

  // ---------------------------------------------------------------- steps

  /** The message of the argument check a page call fails when given a missing selector or a value of the wrong type. */
  const InvalidArgument := "invalid argument"
  const DefaultWait := 1000
  const VerifyTimeout: nat := 5000
  const SubmittedMessage := "Ticket submitted successfully"

  /** `value || 1000` for a wait step: a missing, zero or empty value falls back to the default. */
  function WaitMillis(v: StepValue): (r: Outcome<int>)
    ensures v.NoValue? || v == Millis(0) || v == Text("") ==> r == Ok(DefaultWait)
    ensures v.Millis? && v.ms != 0 ==> r == Ok(v.ms)
    ensures r.Thrown? <==> v.Text? && v.text != ""
  {
    match v
    case NoValue => Ok(DefaultWait)
    case Millis(ms) => Ok(if ms == 0 then DefaultWait else ms)
    case Text(s) => if s == "" then Ok(DefaultWait) else Thrown(InvalidArgument)
  }

  /**
   * The page call a step issues, if any: fill and select need a target and
   * a text value, click and verify a target; navigate issues nothing.
   */
  function StepCall(step: ActionStep): (r: Outcome<Option<Call>>)
    ensures r == Ok(None) <==> step.action == NavigateAction
    ensures r.Ok? && r.value.Some? ==> r.value.value != Close && !r.value.value.Goto?
    ensures step.action in {FillAction, SelectAction, ClickAction, VerifyAction} && step.target.None? ==> r.Thrown?
    ensures step.action == FillAction && step.target.Some? && step.value.Text? ==>
      r == Ok(Some(Fill(step.target.value, step.value.text)))
    ensures step.action == SelectAction && step.target.Some? && step.value.Text? ==>
      r == Ok(Some(SelectOption(step.target.value, step.value.text)))
    ensures step.action == ClickAction && step.target.Some? ==> r == Ok(Some(Click(step.target.value)))
    ensures step.action == VerifyAction && step.target.Some? ==> r == Ok(Some(WaitForSelector(step.target.value, VerifyTimeout)))
    ensures step.action == WaitAction ==>
      (r.Ok? <==> WaitMillis(step.value).Ok?) && (r.Ok? ==> r == Ok(Some(WaitForTimeout(WaitMillis(step.value).value))))
  {
    match step.action
    case FillAction =>
      if step.target.Some? && step.value.Text? then Ok(Some(Fill(step.target.value, step.value.text))) else Thrown(InvalidArgument)
    case SelectAction =>
      if step.target.Some? && step.value.Text? then Ok(Some(SelectOption(step.target.value, step.value.text))) else Thrown(InvalidArgument)
    case ClickAction =>
      if step.target.Some? then Ok(Some(Click(step.target.value))) else Thrown(InvalidArgument)
    case WaitAction =>
      (match WaitMillis(step.value)
       case Ok(ms) => Ok(Some(WaitForTimeout(ms)))
       case Thrown(m) => Thrown(m))
    case VerifyAction =>
      if step.target.Some? then Ok(Some(WaitForSelector(step.target.value, VerifyTimeout))) else Thrown(InvalidArgument)
    case NavigateAction => Ok(None)
  }

  /** `executeStep`: issues the step's call, or throws its argument error without touching the page. */
  function ExecuteStep(p: Page, step: ActionStep): (r: Act<()>)
    ensures Avoids(p, r.page, Close)
    ensures StepCall(step).Thrown? ==> r == Act(Thrown(StepCall(step).message), p)
    ensures StepCall(step) == Ok(None) ==> r == Act(Ok(()), p)
    ensures StepCall(step).Ok? && StepCall(step).value.Some? ==> r == Perform(p, StepCall(step).value.value)
  {
    assert p.log[|p.log|..] == [];
    match StepCall(step)
    case Thrown(m) => Act(Thrown(m), p)
    case Ok(None) => Act(Ok(()), p)
    case Ok(Some(c)) => Perform(p, c)
  }

  /** The steps run in order; the first one that throws stops the rest. */
  function RunSteps(p: Page, steps: seq<ActionStep>): (r: Act<()>)
    ensures Avoids(p, r.page, Close)
    decreases |steps|
  {
    if steps == [] then
      assert p.log[|p.log|..] == [];
      Act(Ok(()), p)
    else
      var s := ExecuteStep(p, steps[0]);
      if s.out.Thrown? then s
      else
        var rest := RunSteps(s.page, steps[1..]);
        AvoidsTransitive(p, s.page, rest.page, Close);
        rest
  }

  /** One step of `RunSteps`: a step that throws ends the run, otherwise the rest go on from its page. */
  lemma RunStepsCons(p: Page, steps: seq<ActionStep>)
    requires steps != []
    ensures var s := ExecuteStep(p, steps[0]);
      RunSteps(p, steps) == if s.out.Thrown? then s else RunSteps(s.page, steps[1..])
  {
  }

  /** The page calls a list of steps issues when all of them go through. */
  function IssuedCalls(steps: seq<ActionStep>): seq<Call>
    decreases |steps|
  {
    if steps == [] then [] else CallOf(steps[0]) + IssuedCalls(steps[1..])
  }

  /** The call one well-formed step issues: none for a navigate step. */
  function CallOf(step: ActionStep): seq<Call>
  {
    match StepCall(step)
    case Ok(Some(c)) => [c]
    case _ => []
  }

  lemma ExecuteStepLog(p: Page, step: ActionStep)
    requires ExecuteStep(p, step).out.Ok?
    ensures StepCall(step).Ok?
    ensures ExecuteStep(p, step).page.log == p.log + CallOf(step)
  {
    if StepCall(step) == Ok(None) {
      assert p.log + [] == p.log;
    }
  }

  /** When the steps all go through, every one of them was well formed. */
  lemma {:induction false} StepsWellFormed(p: Page, steps: seq<ActionStep>)
    requires RunSteps(p, steps).out.Ok?
    ensures forall k :: 0 <= k < |steps| ==> StepCall(steps[k]).Ok?
    decreases |steps|
  {
    if steps != [] {
      var s := ExecuteStep(p, steps[0]);
      RunStepsCons(p, steps);
      assert s.out.Ok?;
      StepsWellFormed(s.page, steps[1..]);
      forall k | 0 < k < |steps|
        ensures StepCall(steps[k]).Ok?
      {
        assert steps[k] == steps[1..][k - 1];
      }
    }
  }

  /** When the steps all go through, the page saw exactly their calls, in plan order. */
  lemma {:induction false} StepsRunInOrder(p: Page, steps: seq<ActionStep>)
    requires RunSteps(p, steps).out.Ok?
    ensures RunSteps(p, steps).page.log == p.log + IssuedCalls(steps)
    decreases |steps|
  {
    if steps != [] {
      var s := ExecuteStep(p, steps[0]);
      RunStepsCons(p, steps);
      StepsRunInOrder(s.page, steps[1..]);
      ExecuteStepLog(p, steps[0]);
      LogChain(p.log, s.page.log, RunSteps(p, steps).page.log, CallOf(steps[0]), IssuedCalls(steps[1..]));
    }
  }

  /**
   * The plan's run after the steps: verification reads the content, then a
   * screenshot is taken; the result carries the confirmation exactly when
   * the page looks like a success.
   */
  function PlanRun(p: Page, steps: seq<ActionStep>, platform: string): (r: Act<SubmissionResult>)
    ensures Avoids(p, r.page, Close)
    ensures r.out.Ok? ==> RunSteps(p, steps).out.Ok?
    ensures r.out.Ok? ==> var q := RunSteps(p, steps).page;
      && r.out.value.success == SuccessPage(q.screen.content)
      && r.out.value.screenshot == Some(q.screen.image)
      && r.page.log == q.log + [Content, Screenshot]
    ensures r.out.Ok? ==>
      && r.out.value.platform == platform && r.out.value.ticketId.None? && r.out.value.error.None?
      && (r.out.value.confirmationMessage.Some? <==> r.out.value.success)
    ensures RunSteps(p, steps).out.Thrown? ==> r == Act(Thrown(RunSteps(p, steps).out.message), RunSteps(p, steps).page)
  {
    var s := RunSteps(p, steps);
    if s.out.Thrown? then Act(Thrown(s.out.message), s.page)
    else
      var v := VerifySubmission(s.page);
      AvoidsTransitive(p, s.page, v.page, Close);
      if v.out.Thrown? then Act(Thrown(v.out.message), v.page)
      else
        var shot := TakeScreenshot(v.page);
        AvoidsTransitive(p, v.page, shot.page, Close);
        if shot.out.Thrown? then Act(Thrown(shot.out.message), shot.page)
        else
          LogChain(s.page.log, v.page.log, shot.page.log, [Content], [Screenshot]);
          assert [Content] + [Screenshot] == [Content, Screenshot];
          var success := v.out.value;
          Act(Ok(SubmissionResult(success, None, if success then Some(SubmittedMessage) else None, Some(shot.out.value), None, platform)),
            shot.page)
  }

  /** `executePlan`: the steps one after another, then verification and the screenshot. */
  method ExecutePlan(p: Page, plan: AgentPlan, platform: string) returns (r: Act<SubmissionResult>)
    ensures r == PlanRun(p, plan.steps, platform)
  {
    var page := p;
    for i := 0 to |plan.steps|
      invariant RunSteps(p, plan.steps) == RunSteps(page, plan.steps[i..])
    {
      assert plan.steps[i..][1..] == plan.steps[i + 1..];
      var s := ExecuteStep(page, plan.steps[i]);
      if s.out.Thrown? {
        r := Act(Thrown(s.out.message), s.page);
        return;
      }
      page := s.page;
    }
    assert plan.steps[|plan.steps|..] == [];
    var v := VerifySubmission(page);
    if v.out.Thrown? {
      r := Act(Thrown(v.out.message), v.page);
      return;
    }
    var success := v.out.value;
    var shot := TakeScreenshot(v.page);
    if shot.out.Thrown? {
      r := Act(Thrown(shot.out.message), shot.page);
      return;
    }
    r := Act(Ok(SubmissionResult(success, None, if success then Some(SubmittedMessage) else None, Some(shot.out.value), None, platform)),
      shot.page);
  }

  // ---------------------------------------------------------------- one platform

  /** The form analyzer: scraped elements and the ticket to a field mapping, or the error it threw. */
  type Analyzer = (seq<DomElement>, TicketData) -> Outcome<FormMapping>

  /** The try block of `submitToPlatform`: navigate, scrape, analyze, plan, run. */
  function Visit(ticket: TicketData, platform: string, p: Page, analyze: Analyzer): (r: Act<SubmissionResult>)
    ensures Avoids(p, r.page, Close)
    ensures Extends(Perform(p, Goto(GetPlatformUrl(platform), false)).page, r.page)
    ensures FaultOf(p, Goto(GetPlatformUrl(platform), false)).Some? ==>
      r == Act(Thrown(FaultOf(p, Goto(GetPlatformUrl(platform), false)).value), Perform(p, Goto(GetPlatformUrl(platform), false)).page)
    ensures r.out.Ok? ==> r.out.value.platform == platform
  {
    var g := Perform(p, Goto(GetPlatformUrl(platform), false));
    if g.out.Thrown? then Act(Thrown(g.out.message), g.page)
    else
      var s := Scrape(g.page);
      AvoidsTransitive(p, g.page, s.page, Close);
      if s.out.Thrown? then Act(Thrown(s.out.message), s.page)
      else
        match analyze(s.out.value, ticket)
        case Thrown(m) => Act(Thrown(m), s.page)
        case Ok(mapping) =>
          var run := PlanRun(s.page, ActionPlanner.PlannedSteps(mapping, ticket), platform);
          AvoidsTransitive(p, s.page, run.page, Close);
          ExtendsTransitive(g.page, s.page, run.page);
          run
  }

  /** What one platform yields: the result or the error, and the page after it was closed, if one was opened. */
  datatype Visited = Visited(out: Outcome<SubmissionResult>, closed: Option<Page>)

  lemma CloseOnce(p: Page, q: Page)
    requires Avoids(p, q, Close)
    ensures CountCalls(q.log + [Close], Close) == CountCalls(p.log, Close) + 1
  {
    assert q.log == p.log + q.log[|p.log|..] by {
      assert q.log[..|p.log|] == p.log;
    }
    CountCallsAbsent(q.log[|p.log|..], Close);
    CountCallsAppend(p.log, q.log[|p.log|..], Close);
    CountCallsAppend(q.log, [Close], Close);
  }

  /**
   * `submitToPlatform`: a page that cannot be opened is the error itself;
   * otherwise the page is closed exactly once, as the very last call, and a
   * close that throws replaces whatever the visit produced.
   */
  function SubmitRun(ticket: TicketData, platform: string, acquired: Outcome<Page>, analyze: Analyzer): (r: Visited)
    ensures acquired.Thrown? ==> r == Visited(Thrown(acquired.message), None)
    ensures acquired.Ok? ==>
      && r.closed.Some?
      && |r.closed.value.log| > 0
      && Extends(acquired.value, r.closed.value)
      && r.closed.value.log[|r.closed.value.log| - 1] == Close
      && CountCalls(r.closed.value.log, Close) == CountCalls(acquired.value.log, Close) + 1
    ensures acquired.Ok? ==> var v := Visit(ticket, platform, acquired.value, analyze);
      && (FaultOf(v.page, Close).Some? ==> r.out == Thrown(FaultOf(v.page, Close).value))
      && (FaultOf(v.page, Close).None? ==> r.out == v.out)
    ensures r.out.Ok? ==> r.out.value.platform == platform
  {
    match acquired
    case Thrown(m) => Visited(Thrown(m), None)
    case Ok(p) =>
      var v := Visit(ticket, platform, p, analyze);
      var c := Perform(v.page, Close);
      ExtendsTransitive(p, v.page, c.page);
      CloseOnce(p, v.page);
      Visited(if c.out.Thrown? then Thrown(c.out.message) else v.out, Some(c.page))
  }

  /** A navigation that fails still closes the page, and nothing is scraped, filled or clicked. */
  lemma NavigationFaultCloses(ticket: TicketData, platform: string, p: Page, analyze: Analyzer)
    requires FaultOf(p, Goto(GetPlatformUrl(platform), false)).Some?
    requires FaultOf(p, Close).None?
    ensures SubmitRun(ticket, platform, Ok(p), analyze).out == Thrown(FaultOf(p, Goto(GetPlatformUrl(platform), false)).value)
    ensures SubmitRun(ticket, platform, Ok(p), analyze).closed.value.log == p.log + [Goto(GetPlatformUrl(platform), false), Close]
  {
  }

  method SubmitToPlatform(ticket: TicketData, platform: string, acquired: Outcome<Page>, analyze: Analyzer) returns (r: Visited)
    ensures r == SubmitRun(ticket, platform, acquired, analyze)
  {
    if acquired.Thrown? {
      r := Visited(Thrown(acquired.message), None);
      return;
    }
    var page := acquired.value;
    var out: Outcome<SubmissionResult>;
    var g := Perform(page, Goto(GetPlatformUrl(platform), false));
    page := g.page;
    if g.out.Thrown? {
      out := Thrown(g.out.message);
    } else {
      var s := Scrape(page);
      page := s.page;
      if s.out.Thrown? {
        out := Thrown(s.out.message);
      } else {
        var mapping := analyze(s.out.value, ticket);
        if mapping.Thrown? {
          out := Thrown(mapping.message);
        } else {
          var plan := ActionPlanner.CreatePlan(mapping.value, ticket);
          var run := ExecutePlan(page, plan, platform);
          out := run.out;
          page := run.page;
        }
      }
    }
    assert Act(out, page) == Visit(ticket, platform, acquired.value, analyze);
    var c := Perform(page, Close);
    if c.out.Thrown? {
      out := Thrown(c.out.message);
    }
    r := Visited(out, Some(c.page));
  }

  // ---------------------------------------------------------------- all platforms

  /** The entry `submitTicket` records for one platform: the result, or a failed one carrying the error. */
  function ResultOf(v: Visited, platform: string): SubmissionResult
  {
    match v.out
    case Ok(res) => res
    case Thrown(m) => FailedResult(platform, m)
  }

  function ResultFor(ticket: TicketData, platform: string, acquired: Outcome<Page>, analyze: Analyzer): (r: SubmissionResult)
    ensures r.platform == platform
    ensures SubmitRun(ticket, platform, acquired, analyze).out.Thrown? ==>
      r == FailedResult(platform, SubmitRun(ticket, platform, acquired, analyze).out.message)
    ensures SubmitRun(ticket, platform, acquired, analyze).out.Ok? ==>
      r == SubmitRun(ticket, platform, acquired, analyze).out.value
    ensures acquired.Thrown? ==> r == FailedResult(platform, acquired.message)
  {
    ResultOf(SubmitRun(ticket, platform, acquired, analyze), platform)
  }

  /**
   * `submitTicket`: one result per platform, in the order given; the
   * `i`-th is decided by that platform and its own page alone, so one
   * platform's failure never affects another's result.
   */
  method SubmitTicket(ticket: TicketData, platforms: seq<string>, newPage: nat -> Outcome<Page>, analyze: Analyzer)
    returns (results: seq<SubmissionResult>, closed: seq<Option<Page>>)
    ensures |results| == |platforms| && |closed| == |platforms|
    ensures forall i :: 0 <= i < |platforms| ==> results[i] == ResultFor(ticket, platforms[i], newPage(i), analyze)
    ensures forall i :: 0 <= i < |platforms| ==> closed[i] == SubmitRun(ticket, platforms[i], newPage(i), analyze).closed
  {
    results := [];
    closed := [];
    ghost var visits: seq<Visited> := [];
    for i := 0 to |platforms|
      invariant |results| == i && |closed| == i && |visits| == i
      invariant forall k :: 0 <= k < i ==> visits[k] == SubmitRun(ticket, platforms[k], newPage(k), analyze)
      invariant forall k :: 0 <= k < i ==> results[k] == ResultOf(visits[k], platforms[k]) && closed[k] == visits[k].closed
    {
      var v := SubmitToPlatform(ticket, platforms[i], newPage(i), analyze);
      results := results + [ResultOf(v, platforms[i])];
      closed := closed + [v.closed];
      visits := visits + [v];
    }
  }
}
