/** The action planner: turns a field mapping and a ticket into an ordered list of page steps. */
module ActionPlanner {
  import opened Wrappers
  import opened Strings
  import opened Models

  const LoadWait := ActionStep(WaitAction, None, Millis(2000), "Wait for page to load completely")
  const SubmitWait := ActionStep(WaitAction, None, Millis(3000), "Wait for form submission")

  function SubmitStep(m: FormMapping): ActionStep
  {
    ActionStep(ClickAction, Some(m.submitButton), NoValue, "Submit the form")
  }

  /** A fill step for `key` when the mapping has that field (whatever its selector), none otherwise. */
  function FillIfMapped(m: FormMapping, key: string, value: string, description: string): (r: seq<ActionStep>)
    ensures |r| == if key in m.fields then 1 else 0
    ensures key in m.fields ==> r == [ActionStep(FillAction, Some(m.fields[key].selector), Text(value), description)]
  {
    if key in m.fields then [ActionStep(FillAction, Some(m.fields[key].selector), Text(value), description)] else []
  }

  /** The category step: present when the ticket has a category and the mapping a category field; a select field is selected, anything else filled. */
  function CategoryStep(m: FormMapping, t: TicketData): (r: seq<ActionStep>)
    ensures |r| == if Truthy(t.category) && "category" in m.fields then 1 else 0
    ensures |r| == 1 ==> r[0].target == Some(m.fields["category"].selector) && r[0].value == Text(t.category.value)
    ensures |r| == 1 ==> (r[0].action == SelectAction <==> m.fields["category"].fieldType == Select)
    ensures |r| == 1 ==> (r[0].action == FillAction <==> m.fields["category"].fieldType != Select)
  {
    if Truthy(t.category) && "category" in m.fields then
      var f := m.fields["category"];
      [ActionStep(if f.fieldType == Select then SelectAction else FillAction, Some(f.selector), Text(t.category.value), "Select or fill category")]
    else []
  }

  /** The steps between the initial wait and the submit click. */
  function MiddleSteps(m: FormMapping, t: TicketData): (r: seq<ActionStep>)
    ensures |r| <= 4
  {
    FillIfMapped(m, "email", t.email, "Fill email address")
      + FillIfMapped(m, "subject", t.subject, "Fill ticket subject")
      + FillIfMapped(m, "description", t.description, "Fill ticket description")
      + CategoryStep(m, t)
  }

  /**
   * The plan: wait 2000, the field steps, click the submit button, wait
   * 3000. It always has between three and seven steps.
   */
  function PlannedSteps(m: FormMapping, t: TicketData): (steps: seq<ActionStep>)
    ensures 3 <= |steps| <= 7
    ensures steps[0] == LoadWait
    ensures steps[|steps| - 2] == SubmitStep(m) && steps[|steps| - 1] == SubmitWait
    ensures steps[1..|steps| - 2] == MiddleSteps(m, t)
  {
    [LoadWait] + MiddleSteps(m, t) + [SubmitStep(m), SubmitWait]
  }

  /** The reasoning text: the step count and the mapping's platform. */
  function PlanReasoning(count: nat, platform: string): (r: string)
    ensures |r| > 8 + |platform| && r[..8] == "Created "
    ensures r[|r| - |platform|..] == platform
  {
    "Created " + NatToString(count) + "-step plan to submit ticket to " + platform
  }

  /** The plan as its five pieces: the load wait, the four optional field steps, the submit pair. */
  lemma PlanPieces(m: FormMapping, t: TicketData)
    ensures PlannedSteps(m, t) == [LoadWait]
      + FillIfMapped(m, "email", t.email, "Fill email address")
      + FillIfMapped(m, "subject", t.subject, "Fill ticket subject")
      + FillIfMapped(m, "description", t.description, "Fill ticket description")
      + CategoryStep(m, t)
      + [SubmitStep(m), SubmitWait]
  {
  }

  /** The step count is three plus one per mapped field the ticket fills. */
  lemma PlanLength(m: FormMapping, t: TicketData)
    ensures var present := (if "email" in m.fields then 1 else 0) + (if "subject" in m.fields then 1 else 0)
        + (if "description" in m.fields then 1 else 0) + (if Truthy(t.category) && "category" in m.fields then 1 else 0);
      |PlannedSteps(m, t)| == 3 + present
  {
    PlanPieces(m, t);
  }

  /**
   * The field steps follow the order email, subject, description, category:
   * a mapped email is filled right after the initial wait, and without a
   * category step the description is filled just before the submit click.
   */
  lemma PlanOrder(m: FormMapping, t: TicketData)
    ensures "email" in m.fields ==>
      PlannedSteps(m, t)[1] == ActionStep(FillAction, Some(m.fields["email"].selector), Text(t.email), "Fill email address")
    ensures "description" in m.fields && !(Truthy(t.category) && "category" in m.fields) ==>
      var steps := PlannedSteps(m, t);
      steps[|steps| - 3] == ActionStep(FillAction, Some(m.fields["description"].selector), Text(t.description), "Fill ticket description")
  {
    PlanPieces(m, t);
  }

  /** Every fill step carries one of the ticket's own values. */
  lemma PlanFillValues(m: FormMapping, t: TicketData)
    ensures forall k :: 0 <= k < |PlannedSteps(m, t)| && PlannedSteps(m, t)[k].action == FillAction ==>
      PlannedSteps(m, t)[k].value in TicketTexts(t)
  {
    var steps := PlannedSteps(m, t);
    var e := FillIfMapped(m, "email", t.email, "Fill email address");
    var s := FillIfMapped(m, "subject", t.subject, "Fill ticket subject");
    var d := FillIfMapped(m, "description", t.description, "Fill ticket description");
    var c := CategoryStep(m, t);
    PlanPieces(m, t);
    forall k | 0 <= k < |steps| && steps[k].action == FillAction
      ensures steps[k].value in TicketTexts(t)
    {
      if k == 0 || k >= |steps| - 2 {
      } else if k < 1 + |e| {
        assert steps[k] == e[k - 1];
      } else if k < 1 + |e| + |s| {
        assert steps[k] == s[k - 1 - |e|];
      } else if k < 1 + |e| + |s| + |d| {
        assert steps[k] == d[k - 1 - |e| - |s|];
      } else {
        assert steps[k] == c[k - 1 - |e| - |s| - |d|];
      }
    }
  }

  /** The text values a ticket can contribute to a plan. */
  function TicketTexts(t: TicketData): set<StepValue>
  {
    {Text(t.email), Text(t.subject), Text(t.description)} + (if t.category.Some? then {Text(t.category.value)} else {})
  }

  /** Priority, attachments and custom fields never change the plan. */
  lemma PlanIgnoresExtras(m: FormMapping, t: TicketData, priority: Option<string>, attachments: Option<seq<string>>, custom: Option<map<string, string>>)
    ensures PlannedSteps(m, t) == PlannedSteps(m, t.(priority := priority, attachments := attachments, customFields := custom))
  {
  }

  /** One `if (fields.key) steps.push(...)` of `createPlan`. */
  method PushFillIfMapped(steps: seq<ActionStep>, m: FormMapping, key: string, value: string, description: string)
    returns (r: seq<ActionStep>)
    ensures r == steps + FillIfMapped(m, key, value, description)
  {
    r := steps;
    if key in m.fields {
      r := r + [ActionStep(FillAction, Some(m.fields[key].selector), Text(value), description)];
    }
  }

  /** The `if (ticket.category && fields.category)` push of `createPlan`. */
  method PushCategory(steps: seq<ActionStep>, m: FormMapping, t: TicketData) returns (r: seq<ActionStep>)
    ensures r == steps + CategoryStep(m, t)
  {
    r := steps;
    if Truthy(t.category) && "category" in m.fields {
      var action := if m.fields["category"].fieldType == Select then SelectAction else FillAction;
      r := r + [ActionStep(action, Some(m.fields["category"].selector), Text(t.category.value), "Select or fill category")];
    }
  }

  /**
   * `createPlan`: pushes the steps in order and reports their count and the
   * platform in the reasoning.
   */
  method CreatePlan(m: FormMapping, t: TicketData) returns (plan: AgentPlan)
    ensures plan.steps == PlannedSteps(m, t)
    ensures plan.reasoning == PlanReasoning(|plan.steps|, m.platform)
    ensures 3 <= |plan.steps| <= 7
  {
    var steps: seq<ActionStep> := [LoadWait];
    steps := PushFillIfMapped(steps, m, "email", t.email, "Fill email address");
    steps := PushFillIfMapped(steps, m, "subject", t.subject, "Fill ticket subject");
    steps := PushFillIfMapped(steps, m, "description", t.description, "Fill ticket description");
    steps := PushCategory(steps, m, t);
    assert steps == [LoadWait] + MiddleSteps(m, t);
    steps := steps + [SubmitStep(m)];
    steps := steps + [SubmitWait];
    plan := AgentPlan(steps, PlanReasoning(|steps|, m.platform));
  }
}
