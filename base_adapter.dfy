/**
 * The adapter lifecycle: navigate, detect, fill, submit, verify, with any
 * fault turned into a failed submission result.
 */
module BaseAdapter {
  import opened Wrappers
  import opened Models
  import opened Browser
  import FieldDetector
  import GenericAdapter
  import FreshdeskAdapter

  /** The two adapters: the generic one is built for a URL and carries the selector configuration. */
  datatype Adapter =
    | GenericSite(url: string, config: FieldDetector.SelectorsConfig)
    | FreshdeskSite

  /** The `platform` field the constructor sets. */
  function Platform(a: Adapter): (name: string)
    ensures a.GenericSite? ==> name == GenericAdapter.Platform
    ensures a.FreshdeskSite? ==> name == FreshdeskAdapter.Platform
  {
    match a
    case GenericSite(_, _) => GenericAdapter.Platform
    case FreshdeskSite => FreshdeskAdapter.Platform
  }

  /** The `url` field the constructor sets. */
  function Url(a: Adapter): (url: string)
    ensures a.GenericSite? ==> url == a.url
    ensures a.FreshdeskSite? ==> url == FreshdeskAdapter.PortalUrl
  {
    match a
    case GenericSite(url, _) => url
    case FreshdeskSite => FreshdeskAdapter.PortalUrl
  }

  /** The steps of `execute` before verification. */
  datatype Stage = Navigate | Detect | FillIn | Submit

  const LifecycleStages := [Navigate, Detect, FillIn, Submit]

  /** One stage; the mapping `detectForm` returns is discarded. */
  function RunStage(a: Adapter, stage: Stage, p: Page, ticket: TicketData): (r: Act<()>)
    ensures Extends(p, r.page)
  {
    match stage
    case Navigate => Perform(p, Goto(Url(a), true))
    case Detect =>
      (match a
       case GenericSite(url, config) =>
         var m := GenericAdapter.DetectForm(config, url, p);
         Act(if m.out.Thrown? then Thrown(m.out.message) else Ok(()), m.page)
       case FreshdeskSite => Act(Ok(()), FreshdeskAdapter.DetectForm(p).page))
    case FillIn =>
      (match a
       case GenericSite(url, config) => GenericAdapter.FillForm(config, url, p, ticket)
       case FreshdeskSite => FreshdeskAdapter.FillForm(p, ticket))
    case Submit =>
      (match a
       case GenericSite(_, config) => GenericAdapter.SubmitForm(config, p)
       case FreshdeskSite => FreshdeskAdapter.SubmitForm(p))
  }

  /** Runs stages in order with `run`; the first fault stops the rest. */
  function Sequence(run: (Stage, Page) -> Act<()>, stages: seq<Stage>, p: Page): Act<()>
    decreases |stages|
  {
    if stages == [] then Act(Ok(()), p)
    else
      var s := run(stages[0], p);
      if s.out.Thrown? then s else Sequence(run, stages[1..], s.page)
  }

  lemma {:induction false} SequenceExtends(run: (Stage, Page) -> Act<()>, stages: seq<Stage>, p: Page)
    requires forall stage, q :: Extends(q, run(stage, q).page)
    ensures Extends(p, Sequence(run, stages, p).page)
    decreases |stages|
  {
    if stages != [] {
      var s := run(stages[0], p);
      if s.out.Ok? {
        SequenceExtends(run, stages[1..], s.page);
        ExtendsTransitive(p, s.page, Sequence(run, stages[1..], s.page).page);
      }
    }
  }

  lemma {:induction false} SequenceStopsAtFault(run: (Stage, Page) -> Act<()>, before: seq<Stage>, stage: Stage, after: seq<Stage>, p: Page)
    requires Sequence(run, before, p).out.Ok?
    requires run(stage, Sequence(run, before, p).page).out.Thrown?
    ensures Sequence(run, before + [stage] + after, p) == run(stage, Sequence(run, before, p).page)
    decreases |before|
  {
    if before == [] {
      assert before + [stage] + after == [stage] + after;
    } else {
      var all := before + [stage] + after;
      assert all[0] == before[0] && all[1..] == before[1..] + [stage] + after;
      SequenceStopsAtFault(run, before[1..], stage, after, run(before[0], p).page);
    }
  }

  lemma {:induction false} SequenceCompose(run: (Stage, Page) -> Act<()>, before: seq<Stage>, after: seq<Stage>, p: Page)
    requires Sequence(run, before, p).out.Ok?
    ensures Sequence(run, before + after, p) == Sequence(run, after, Sequence(run, before, p).page)
    decreases |before|
  {
    if before == [] {
      assert before + after == after;
    } else {
      var all := before + after;
      assert all[0] == before[0] && all[1..] == before[1..] + after;
      SequenceCompose(run, before[1..], after, run(before[0], p).page);
    }
  }

  /** The stages of one adapter for one ticket. */
  function StageRunner(a: Adapter, ticket: TicketData): (Stage, Page) -> Act<()>
  {
    (stage, q) => RunStage(a, stage, q, ticket)
  }

  /** Runs stages in order; the first fault stops the rest. */
  function RunStages(a: Adapter, stages: seq<Stage>, p: Page, ticket: TicketData): (r: Act<()>)
    ensures Extends(p, r.page)
  {
    SequenceExtends(StageRunner(a, ticket), stages, p);
    Sequence(StageRunner(a, ticket), stages, p)
  }

  /**
   * A fault in one stage ends the run with that fault: the stages after it
   * are never run. Stages that succeed hand their page to the next.
   */
  lemma StagesStopAtFault(a: Adapter, before: seq<Stage>, stage: Stage, after: seq<Stage>, p: Page, ticket: TicketData)
    requires RunStages(a, before, p, ticket).out.Ok?
    requires RunStage(a, stage, RunStages(a, before, p, ticket).page, ticket).out.Thrown?
    ensures RunStages(a, before + [stage] + after, p, ticket) == RunStage(a, stage, RunStages(a, before, p, ticket).page, ticket)
  {
    SequenceStopsAtFault(StageRunner(a, ticket), before, stage, after, p);
  }

  /** When every stage succeeds, the run is the stages one after the other. */
  lemma StagesCompose(a: Adapter, before: seq<Stage>, after: seq<Stage>, p: Page, ticket: TicketData)
    requires RunStages(a, before, p, ticket).out.Ok?
    ensures RunStages(a, before + after, p, ticket) == RunStages(a, after, RunStages(a, before, p, ticket).page, ticket)
  {
    SequenceCompose(StageRunner(a, ticket), before, after, p);
  }

  /** The adapter's own `verifySubmission`. */
  function Verify(a: Adapter, p: Page): (r: Act<SubmissionResult>)
    ensures Extends(p, r.page)
    ensures r.out.Ok? ==> r.out.value.platform == Platform(a)
  {
    match a
    case GenericSite(url, _) => GenericAdapter.VerifySubmission(url, p)
    case FreshdeskSite => FreshdeskAdapter.VerifySubmission(p)
  }

  /**
   * `execute` never throws. A fault in any stage or in verification gives a
   * failed result carrying the fault's message and the adapter's platform;
   * otherwise the result is exactly what verification returned.
   */
  function Execute(a: Adapter, p: Page, ticket: TicketData): (r: Act<SubmissionResult>)
    ensures Extends(p, r.page)
    ensures r.out.Ok? && r.out.value.platform == Platform(a)
    ensures var s := RunStages(a, LifecycleStages, p, ticket);
      && (s.out.Thrown? ==> r == Act(Ok(FailedResult(Platform(a), s.out.message)), s.page))
      && (s.out.Ok? && Verify(a, s.page).out.Ok? ==> r == Verify(a, s.page))
      && (s.out.Ok? && Verify(a, s.page).out.Thrown? ==>
            r == Act(Ok(FailedResult(Platform(a), Verify(a, s.page).out.message)), Verify(a, s.page).page))
  {
    var s := RunStages(a, LifecycleStages, p, ticket);
    if s.out.Thrown? then Act(Ok(FailedResult(Platform(a), s.out.message)), s.page)
    else
      var v := Verify(a, s.page);
      ExtendsTransitive(p, s.page, v.page);
      if v.out.Thrown? then Act(Ok(FailedResult(Platform(a), v.out.message)), v.page) else v
  }

  /** A failed navigation ends `execute` at once: nothing is detected, filled or clicked. */
  lemma NavigationFaultStopsAll(a: Adapter, p: Page, ticket: TicketData)
    requires FaultOf(p, Goto(Url(a), true)).Some?
    ensures Execute(a, p, ticket).out.value == FailedResult(Platform(a), FaultOf(p, Goto(Url(a), true)).value)
    ensures Execute(a, p, ticket).page.log == p.log + [Goto(Url(a), true)]
  {
    StagesStopAtFault(a, [], Navigate, LifecycleStages[1..], p, ticket);
    assert [] + [Navigate] + LifecycleStages[1..] == LifecycleStages;
  }
}
