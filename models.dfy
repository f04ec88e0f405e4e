/**
 * The records the agent passes between its parts: the ticket to submit,
 * the field mapping a detector produces, the action plan and the
 * submission result.
 */
module Models {
  import opened Wrappers

  /** A support ticket as the caller hands it over; never changed downstream. */
  datatype TicketData = TicketData(
    email: string,
    subject: string,
    description: string,
    category: Option<string>,
    priority: Option<string>,        // "low" | "medium" | "high" | "urgent" once validated
    attachments: Option<seq<string>>,
    customFields: Option<map<string, string>>)

  /** The normalised kind of a form field. */
  datatype FieldType = TextInput | EmailInput | Textarea | Select | Radio | Checkbox

  /** A detected field: where it is, what kind it is, and whether the page marks it required. */
  datatype FormField = FormField(selector: string, fieldType: FieldType, required: bool)

  /** Everything a detector learned about one page. */
  datatype FormMapping = FormMapping(
    platform: string,
    url: string,
    fields: map<string, FormField>,
    submitButton: string,
    successIndicators: seq<string>)

  /** The kinds of atomic step a plan may contain. */
  datatype Action = NavigateAction | FillAction | SelectAction | ClickAction | WaitAction | VerifyAction

  /** The untyped `value` of a step: absent, a string, or a number of milliseconds. */
  datatype StepValue = NoValue | Text(text: string) | Millis(ms: int)

  datatype ActionStep = ActionStep(action: Action, target: Option<string>, value: StepValue, description: string)

  datatype AgentPlan = AgentPlan(steps: seq<ActionStep>, reasoning: string)

  /** The outcome of one submission attempt. */
  datatype SubmissionResult = SubmissionResult(
    success: bool,
    ticketId: Option<string>,
    confirmationMessage: Option<string>,
    screenshot: Option<string>,
    error: Option<string>,
    platform: string)

  /** The record a catch block builds from a fault. */
  function FailedResult(platform: string, error: string): (r: SubmissionResult)
    ensures !r.success && r.error == Some(error) && r.platform == platform
    ensures r.ticketId.None? && r.confirmationMessage.None? && r.screenshot.None?
  {
    SubmissionResult(false, None, None, None, Some(error), platform)
  }
}
