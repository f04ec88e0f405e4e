/**
 * The Freshdesk adapter: a fixed field mapping for the Freshdesk demo
 * portal, a priority lookup table, and the ticket number read from the
 * confirmation notice.
 */
module FreshdeskAdapter {
  import opened Wrappers
  import opened Strings
  import opened Models
  import opened Browser
  import opened AdapterActions

  const Platform := "freshdesk"
  const PortalUrl := "https://demo.freshdesk.com/support/tickets/new"

  const EmailSelector := "#helpdesk_ticket_email"
  const SubjectSelector := "#helpdesk_ticket_subject"
  const DescriptionSelector := "#helpdesk_ticket_description"
  const PrioritySelector := "#helpdesk_ticket_priority"
  const SubmitSelector := "input[type=\"submit\"]"
  const NoticeSelector := ".notice"

  /** The confirmation used when the notice has no text. */
  const DefaultConfirmation := "Ticket submitted successfully"
  const VerifyError := "Could not verify submission"

  /** The mapping `detectForm` always returns; it never looks at the page. */
  const Mapping := FormMapping(
    Platform,
    PortalUrl,
    map[
      "email" := FormField(EmailSelector, EmailInput, true),
      "subject" := FormField(SubjectSelector, TextInput, true),
      "description" := FormField(DescriptionSelector, Textarea, true),
      "priority" := FormField(PrioritySelector, Select, false)],
    "input[type=\"submit\"], button[type=\"submit\"]",
    ["ticket has been created", "thank you", "reference number"])

  /** `detectForm`: the fixed mapping, without any page call. */
  function DetectForm(p: Page): (r: Act<FormMapping>)
    ensures r == Act(Ok(Mapping), p)
  {
    Act(Ok(Mapping), p)
  }

  /**
   * The fixed mapping names four fields, each at `#helpdesk_ticket_` plus
   * its own name; all but the priority are required.
   */
  lemma MappingShape()
    ensures Mapping.fields.Keys == {"email", "subject", "description", "priority"}
    ensures forall k :: k in Mapping.fields ==> Mapping.fields[k].selector == "#helpdesk_ticket_" + k
    ensures forall k :: k in Mapping.fields ==> (Mapping.fields[k].required <==> k != "priority")
    ensures Mapping.platform == Platform && Mapping.url == PortalUrl
    ensures Mapping.fields["email"].fieldType == EmailInput && Mapping.fields["subject"].fieldType == TextInput
    ensures Mapping.fields["description"].fieldType == Textarea && Mapping.fields["priority"].fieldType == Select
    ensures Mapping.submitButton == "input[type=\"submit\"], button[type=\"submit\"]"
    ensures Mapping.successIndicators == ["ticket has been created", "thank you", "reference number"]
  {
    assert "#helpdesk_ticket_" + "email" == EmailSelector;
    assert "#helpdesk_ticket_" + "subject" == SubjectSelector;
    assert "#helpdesk_ticket_" + "description" == DescriptionSelector;
    assert "#helpdesk_ticket_" + "priority" == PrioritySelector;
  }

  /** The priority table: low, medium, high and urgent map to 1 to 4; anything else to the medium value. */
  function PriorityValue(priority: string): (v: string)
    ensures v in {"1", "2", "3", "4"}
    ensures priority == "low" ==> v == "1"
    ensures priority == "high" ==> v == "3"
    ensures priority == "urgent" ==> v == "4"
    ensures v == "2" <==> priority != "low" && priority != "high" && priority != "urgent"
  {
    match priority
    case "low" => "1"
    case "medium" => "2"
    case "high" => "3"
    case "urgent" => "4"
    case _ => "2"
  }

  /** The page calls of `fillForm`: wait-and-fill email, subject and description, then select a priority if one is given. */
  function FillCalls(ticket: TicketData): (calls: seq<Call>)
    ensures |calls| == if Truthy(ticket.priority) then 7 else 6
    ensures calls[..6] == [
      WaitForSelector(EmailSelector, DefaultTimeout), Fill(EmailSelector, ticket.email),
      WaitForSelector(SubjectSelector, DefaultTimeout), Fill(SubjectSelector, ticket.subject),
      WaitForSelector(DescriptionSelector, DefaultTimeout), Fill(DescriptionSelector, ticket.description)]
    ensures Truthy(ticket.priority) ==> calls[6] == SelectOption(PrioritySelector, PriorityValue(ticket.priority.value))
    ensures (exists k :: 0 <= k < |calls| && calls[k].SelectOption?) <==> Truthy(ticket.priority)
  {
    [ WaitForSelector(EmailSelector, DefaultTimeout), Fill(EmailSelector, ticket.email),
      WaitForSelector(SubjectSelector, DefaultTimeout), Fill(SubjectSelector, ticket.subject),
      WaitForSelector(DescriptionSelector, DefaultTimeout), Fill(DescriptionSelector, ticket.description)]
    + PriorityCalls(ticket)
  }

  /** The select call `fillForm` issues for a priority, if one is given. */
  function PriorityCalls(ticket: TicketData): seq<Call>
  {
    if Truthy(ticket.priority) then [SelectOption(PrioritySelector, PriorityValue(ticket.priority.value))] else []
  }

  /**
   * `fillForm`: wait-and-fill email, subject and description, then select
   * the priority if one is given. The first fault stops the rest: the calls
   * issued are a prefix of `FillCalls`, all of them on success and at least
   * the throwing one otherwise.
   */
  function FillForm(p: Page, ticket: TicketData): (r: Act<()>)
    ensures Extends(p, r.page)
    ensures r == RunCalls(p, FillCalls(ticket))
    ensures exists k :: (0 <= k <= |FillCalls(ticket)| && r.page.log == p.log + FillCalls(ticket)[..k]
      && (r.out.Ok? ==> k == |FillCalls(ticket)|) && (r.out.Thrown? ==> k >= 1))
  {
    var e := WaitAndFill(p, EmailSelector, ticket.email, DefaultTimeout);
    var r := if e.out.Thrown? then e
      else
        var s := WaitAndFill(e.page, SubjectSelector, ticket.subject, DefaultTimeout);
        if s.out.Thrown? then s
        else
          var d := WaitAndFill(s.page, DescriptionSelector, ticket.description, DefaultTimeout);
          if d.out.Thrown? then d
          else RunCalls(d.page, PriorityCalls(ticket));
    FillFormCalls(p, ticket);
    RunCallsInOrder(p, FillCalls(ticket));
    r
  }

  /** The stages of `fillForm` issue exactly `FillCalls`, in order, stopping at the first fault. */
  lemma FillFormCalls(p: Page, ticket: TicketData)
    ensures var e := WaitAndFill(p, EmailSelector, ticket.email, DefaultTimeout);
      RunCalls(p, FillCalls(ticket)) ==
        if e.out.Thrown? then e
        else
          var s := WaitAndFill(e.page, SubjectSelector, ticket.subject, DefaultTimeout);
          if s.out.Thrown? then s
          else
            var d := WaitAndFill(s.page, DescriptionSelector, ticket.description, DefaultTimeout);
            if d.out.Thrown? then d
            else RunCalls(d.page, PriorityCalls(ticket))
  {
    var we := [WaitForSelector(EmailSelector, DefaultTimeout), Fill(EmailSelector, ticket.email)];
    var ws := [WaitForSelector(SubjectSelector, DefaultTimeout), Fill(SubjectSelector, ticket.subject)];
    var wd := [WaitForSelector(DescriptionSelector, DefaultTimeout), Fill(DescriptionSelector, ticket.description)];
    var pr := PriorityCalls(ticket);
    assert FillCalls(ticket) == we + (ws + (wd + pr));
    WaitAndFillCalls(p, EmailSelector, ticket.email, DefaultTimeout);
    RunCallsAppend(p, we, ws + (wd + pr));
    var e := RunCalls(p, we);
    if e.out.Ok? {
      WaitAndFillCalls(e.page, SubjectSelector, ticket.subject, DefaultTimeout);
      RunCallsAppend(e.page, ws, wd + pr);
      var s := RunCalls(e.page, ws);
      if s.out.Ok? {
        WaitAndFillCalls(s.page, DescriptionSelector, ticket.description, DefaultTimeout);
        RunCallsAppend(s.page, wd, pr);
      }
    }
  }

  /**
   * On a page where no fill or select moves to another screen, `fillForm`
   * succeeds exactly when none of its calls throws on that page, and a
   * throw is the fault of the first call that has one.
   */
  lemma FillFormFaults(p: Page, ticket: TicketData)
    requires forall i :: 0 <= i < |FillCalls(ticket)| ==> Stays(p, FillCalls(ticket)[i])
    ensures FillForm(p, ticket).out.Ok? <==> forall i :: 0 <= i < |FillCalls(ticket)| ==> FaultOf(p, FillCalls(ticket)[i]).None?
    ensures FillForm(p, ticket).out.Thrown? ==>
      exists k :: 0 <= k < |FillCalls(ticket)| && FaultOf(p, FillCalls(ticket)[k]) == Some(FillForm(p, ticket).out.message)
        && forall i :: 0 <= i < k ==> FaultOf(p, FillCalls(ticket)[i]).None?
  {
    RunCallsStable(p, FillCalls(ticket));
    if FillForm(p, ticket).out.Thrown? {
      var k := IssuedCount(p, FillCalls(ticket)) - 1;
      assert FaultOf(p, FillCalls(ticket)[k]) == Some(FillForm(p, ticket).out.message);
    }
  }

  /** `submitForm`: wait for and click the submit input, then wait three seconds. */
  function SubmitForm(p: Page): (r: Act<()>)
    ensures Extends(p, r.page)
    ensures r.out.Ok? ==> r.page.log == p.log + [WaitForSelector(SubmitSelector, DefaultTimeout), Click(SubmitSelector), WaitForTimeout(3000)]
    ensures var wait := FaultOf(p, WaitForSelector(SubmitSelector, DefaultTimeout));
      var click := FaultOf(p, Click(SubmitSelector));
      var pause := FaultOf(p, WaitForTimeout(3000));
      && (r.out.Ok? <==> wait.None? && click.None? && pause.None?)
      && (wait.Some? ==> r.out == Thrown(wait.value))
      && (wait.None? && click.Some? ==> r.out == Thrown(click.value))
      && (wait.None? && click.None? && pause.Some? ==> r.out == Thrown(pause.value))
  {
    var c := WaitAndClick(p, SubmitSelector, DefaultTimeout);
    if c.out.Thrown? then c
    else
      var w := Perform(c.page, WaitForTimeout(3000));
      ExtendsTransitive(p, c.page, w.page);
      w
  }

  // ---------------------------------------------------------------- ticket number

  /** Position `i` holds `#` followed by a digit: where `/#(\d+)/` can match. */
  predicate MarkAt(text: string, i: nat)
  {
    i + 1 < |text| && text[i] == '#' && IsDigit(text[i + 1])
  }

  /** The length of the run of digits starting at `i`. */
  function DigitsFrom(text: string, i: nat): (n: nat)
    requires i <= |text|
    ensures i + n <= |text|
    ensures forall j :: i <= j < i + n ==> IsDigit(text[j])
    ensures i + n == |text| || !IsDigit(text[i + n])
    decreases |text| - i
  {
    if i < |text| && IsDigit(text[i]) then 1 + DigitsFrom(text, i + 1) else 0
  }

  /** The first mark at or after `from`. */
  function FirstMark(text: string, from: nat): (r: Option<nat>)
    requires from <= |text|
    ensures r.Some? ==> from <= r.value && MarkAt(text, r.value)
    ensures r.Some? ==> forall j :: from <= j < r.value ==> !MarkAt(text, j)
    ensures r.None? ==> forall j :: from <= j < |text| ==> !MarkAt(text, j)
    decreases |text| - from
  {
    if from == |text| then None
    else if MarkAt(text, from) then Some(from)
    else FirstMark(text, from + 1)
  }

  /**
   * `extractTicketId`: the whole run of digits after the leftmost `#` that
   * is immediately followed by a digit; nothing when there is no such `#`.
   */
  function ExtractTicketId(text: string): (r: Option<string>)
    ensures r.None? <==> forall i :: 0 <= i < |text| ==> !MarkAt(text, i)
    ensures r.Some? ==> exists i :: (0 <= i < |text| && MarkAt(text, i)
      && (forall j :: 0 <= j < i ==> !MarkAt(text, j))
      && r.value == text[i + 1..i + 1 + DigitsFrom(text, i + 1)])
    ensures r.Some? ==> r.value != "" && forall j :: 0 <= j < |r.value| ==> IsDigit(r.value[j])
  {
    match FirstMark(text, 0)
    case None => None
    case Some(i) =>
      var n := DigitsFrom(text, i + 1);
      var digits := text[i + 1..i + 1 + n];
      assert n >= 1 by {
        assert IsDigit(text[i + 1]);
      }
      assert forall j :: 0 <= j < n ==> IsDigit(digits[j]) by {
        assert forall j :: 0 <= j < n ==> digits[j] == text[i + 1 + j];
      }
      assert i < |text| && MarkAt(text, i) && forall j :: 0 <= j < i ==> !MarkAt(text, j);
      Some(digits)
  }

  lemma {:induction false} DigitsFromRun(text: string, i: nat, n: nat)
    requires i + n <= |text|
    requires forall j :: i <= j < i + n ==> IsDigit(text[j])
    requires i + n == |text| || !IsDigit(text[i + n])
    ensures DigitsFrom(text, i) == n
    decreases n
  {
    if n > 0 {
      DigitsFromRun(text, i + 1, n - 1);
    }
  }

  /**
   * A notice that shows a ticket number after `#` gives back exactly that
   * number's digits, provided no earlier `#` is followed by a digit and the
   * number is not followed by another digit.
   */
  lemma ExtractRenderedNumber(before: string, n: nat, after: string)
    requires forall i :: 0 <= i < |before| ==> !MarkAt(before + "#", i)
    requires after == "" || !IsDigit(after[0])
    ensures ExtractTicketId(before + "#" + NatToString(n) + after) == Some(NatToString(n))
  {
    var digits := NatToString(n);
    var text := before + "#" + digits + after;
    var m := |before|;
    assert MarkAt(text, m);
    forall j | 0 <= j < m
      ensures !MarkAt(text, j)
    {
      assert !MarkAt(before + "#", j);
      assert text[j] == (before + "#")[j] && text[j + 1] == (before + "#")[j + 1];
    }
    assert FirstMark(text, 0) == Some(m);
    forall j | m + 1 <= j < m + 1 + |digits|
      ensures IsDigit(text[j])
    {
      assert text[j] == digits[j - m - 1];
    }
    if after != "" {
      assert text[m + 1 + |digits|] == after[0];
    }
    DigitsFromRun(text, m + 1, |digits|);
    assert text[m + 1..m + 1 + |digits|] == digits;
  }

  // ---------------------------------------------------------------- verification

  /**
   * `verifySubmission`: waits for the notice and reads its text. It never
   * throws; it succeeds exactly when neither call fails, and then carries
   * the notice text (or the default) and the ticket number found in it.
   */
  function VerifySubmission(p: Page): (r: Act<SubmissionResult>)
    ensures Extends(p, r.page)
    ensures r.out.Ok? && r.out.value.platform == Platform
    ensures r.out.value.success <==>
      FaultOf(p, WaitForSelector(NoticeSelector, DefaultTimeout)).None? && FaultOf(p, TextContent(NoticeSelector)).None?
    ensures !r.out.value.success ==> r.out.value == FailedResult(Platform, VerifyError)
    ensures r.out.value.success ==>
      var text := if NoticeSelector in p.screen.texts then Some(p.screen.texts[NoticeSelector]) else None;
      && r.out.value.ticketId == ExtractTicketId(OrEmpty(text))
      && r.out.value.confirmationMessage == Some(if Truthy(text) then text.value else DefaultConfirmation)
      && r.out.value.error.None?
  {
    var w := Perform(p, WaitForSelector(NoticeSelector, DefaultTimeout));
    if w.out.Thrown? then Act(Ok(FailedResult(Platform, VerifyError)), w.page)
    else
      var t := ReadTextContent(w.page, NoticeSelector);
      ExtendsTransitive(p, w.page, t.page);
      if t.out.Thrown? then Act(Ok(FailedResult(Platform, VerifyError)), t.page)
      else
        var text := t.out.value;
        Act(Ok(SubmissionResult(
          true,
          ExtractTicketId(OrEmpty(text)),
          Some(if Truthy(text) then text.value else DefaultConfirmation),
          None,
          None,
          Platform)), t.page)
  }
}
