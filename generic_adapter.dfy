/**
 * The generic adapter: detects a form heuristically, fills the three
 * ticket fields it found, clicks a submit button found by trying text
 * templates, and judges success by the URL or by keywords in the page.
 */
module GenericAdapter {
  import opened Wrappers
  import opened Strings
  import opened Models
  import opened Browser
  import opened AdapterActions
  import opened FieldDetector

  /** The platform name the generic adapter reports. */
  const Platform := "generic"

  /** The selector used when no submit text is configured or none resolves. */
  const FallbackSubmit := "button[type=\"submit\"], input[type=\"submit\"]"

  /** The success indicators a generic mapping carries. */
  const Indicators := ["thank you", "submitted", "received", "success"]

  /** The keywords whose presence in the page content means success. */
  const SuccessKeywords := ["thank", "success", "submitted", "received", "confirmation"]

  // ---------------------------------------------------------------- submit button

  /** The selectors tried for one button text, in order. */
  function Templates(text: string): (r: seq<string>)
    ensures |r| == 3 && forall k :: 0 <= k < 3 ==> r[k] != ""
  {
    ["button:text(\"" + text + "\")", "input[value*=\"" + text + "\"]", "button:has-text(\"" + text + "\")"]
  }

  /** The selectors tried for all texts: the templates of each text in turn. */
  function ButtonCandidates(texts: seq<string>): (r: seq<string>)
    ensures |r| == 3 * |texts|
    ensures forall k :: 0 <= k < |r| ==> r[k] != ""
  {
    if texts == [] then [] else Templates(texts[0]) + ButtonCandidates(texts[1..])
  }

  /** On a page showing what `p` shows, `selector` is returned: its lookup finds an element and disposing of it does not throw. */
  predicate Resolves(p: Page, selector: string)
  {
    FaultOf(p, QuerySelector(selector)).None? && selector in p.screen.present && FaultOf(p, Dispose(selector)).None?
  }

  /** One inner iteration: a failed lookup reads as null, and a throw while disposing is caught. */
  function Probe(p: Page, selector: string): (r: Act<bool>)
    ensures r.out.Ok? && Extends(p, r.page) && r.page.screen == p.screen
  {
    var q := Query(p, selector);
    if q.out.Thrown? || !q.out.value then Act(Ok(false), q.page)
    else
      var d := Perform(q.page, Dispose(selector));
      ExtendsTransitive(p, q.page, d.page);
      Act(Ok(d.out.Ok?), d.page)
  }

  /** Tries `candidates` in order and returns the first that resolves, or the fallback. */
  function SearchButton(p: Page, candidates: seq<string>): (r: Act<string>)
    ensures r.out.Ok? && Extends(p, r.page) && r.page.screen == p.screen
    decreases |candidates|
  {
    if candidates == [] then Act(Ok(FallbackSubmit), p)
    else
      var a := Probe(p, candidates[0]);
      if a.out.value then Act(Ok(candidates[0]), a.page)
      else
        var r := SearchButton(a.page, candidates[1..]);
        ExtendsTransitive(p, a.page, r.page);
        r
  }

  /** `findSubmitButton` as a function: the specification of the method below. */
  function SubmitButtonFor(config: SelectorsConfig, p: Page): (r: Act<string>)
    ensures r.out.Ok? && Extends(p, r.page) && r.page.screen == p.screen
  {
    if "submit" !in config || config["submit"].text.None? then Act(Ok(FallbackSubmit), p)
    else SearchButton(p, ButtonCandidates(config["submit"].text.value))
  }

  /** The position of the first candidate that resolves on a page showing what `p0` shows. */
  function FirstResolving(p0: Page, candidates: seq<string>): (r: Option<nat>)
    ensures r.Some? ==> r.value < |candidates| && Resolves(p0, candidates[r.value])
    ensures r.Some? ==> forall j :: 0 <= j < r.value ==> !Resolves(p0, candidates[j])
    ensures r.None? ==> forall j :: 0 <= j < |candidates| ==> !Resolves(p0, candidates[j])
  {
    FirstWhere(s => Resolves(p0, s), candidates)
  }

  /** One step of `FirstResolving`: the head when it resolves, otherwise one past the position in the rest. */
  lemma FirstResolvingCons(p0: Page, candidates: seq<string>)
    requires candidates != []
    ensures FirstResolving(p0, candidates)
      == if Resolves(p0, candidates[0]) then Some(0)
         else match FirstResolving(p0, candidates[1..])
              case None => None
              case Some(k) => Some(k + 1)
  {
    FirstWhereCons(s => Resolves(p0, s), candidates);
  }

  /** One step of `SearchButton`: the head when its probe succeeds, otherwise the rest from the page the probe left. */
  lemma SearchButtonCons(p: Page, candidates: seq<string>)
    requires candidates != []
    ensures var a := Probe(p, candidates[0]);
      SearchButton(p, candidates)
      == if a.out.value then Act(Ok(candidates[0]), a.page) else SearchButton(a.page, candidates[1..])
  {
  }

  /** A probe on a page showing what `p0` shows succeeds exactly when the candidate resolves there. */
  lemma ProbeResolves(p0: Page, p: Page, c: string)
    requires p.screen == p0.screen && p.faults == p0.faults
    ensures Probe(p, c).out.value <==> Resolves(p0, c)
    ensures Probe(p, c).page.faults == p0.faults
  {
    assert FaultOf(p, QuerySelector(c)) == FaultOf(p0, QuerySelector(c));
    assert FaultOf(p, Dispose(c)) == FaultOf(p0, Dispose(c));
  }

  /** The search returns the first candidate that resolves, and the fallback when none does. */
  lemma {:induction false} SearchButtonFirst(p0: Page, p: Page, candidates: seq<string>)
    requires p.screen == p0.screen && p.faults == p0.faults
    ensures SearchButton(p, candidates).out.value
      == match FirstResolving(p0, candidates)
         case Some(k) => candidates[k]
         case None => FallbackSubmit
    decreases |candidates|
  {
    if candidates != [] {
      var c := candidates[0];
      SearchButtonCons(p, candidates);
      FirstResolvingCons(p0, candidates);
      ProbeResolves(p0, p, c);
      var a := Probe(p, c);
      if !a.out.value {
        SearchButtonFirst(p0, a.page, candidates[1..]);
      }
    }
  }

  /**
   * `findSubmitButton` never yields an empty selector: it is the first
   * template, over the configured texts in order, whose element exists,
   * or else the submit-type fallback; without configured texts it is the
   * fallback and the page is not touched.
   */
  lemma SubmitButtonChoice(config: SelectorsConfig, p: Page)
    ensures SubmitButtonFor(config, p).out.value != ""
    ensures "submit" !in config || config["submit"].text.None? ==> SubmitButtonFor(config, p) == Act(Ok(FallbackSubmit), p)
    ensures "submit" in config && config["submit"].text.Some? ==>
      var candidates := ButtonCandidates(config["submit"].text.value);
      SubmitButtonFor(config, p).out.value
        == match FirstResolving(p, candidates)
           case Some(k) => candidates[k]
           case None => FallbackSubmit
  {
    if "submit" in config && config["submit"].text.Some? {
      var candidates := ButtonCandidates(config["submit"].text.value);
      SearchButtonFirst(p, p, candidates);
      match FirstResolving(p, candidates)
      case Some(k) =>
      case None =>
    }
  }

  /**
   * `findSubmitButton`: for each configured text, for each of its three
   * templates, returns the template at the first element found; a lookup
   * error counts as not found.
   */
  method FindSubmitButton(config: SelectorsConfig, p: Page) returns (r: Act<string>)
    ensures r == SubmitButtonFor(config, p)
    ensures r.out.Ok? && r.out.value != ""
  {
    SubmitButtonChoice(config, p);
    if "submit" !in config || config["submit"].text.None? {
      return Act(Ok(FallbackSubmit), p);
    }
    var texts := config["submit"].text.value;
    var page := p;
    for i := 0 to |texts|
      invariant SubmitButtonFor(config, p) == SearchButton(page, ButtonCandidates(texts[i..]))
    {
      assert texts[i..][0] == texts[i] && texts[i..][1..] == texts[i + 1..];
      var found, after := ProbeTemplates(page, Templates(texts[i]), ButtonCandidates(texts[i + 1..]));
      if found.Some? {
        return Act(Ok(found.value), after);
      }
      page := after;
    }
    assert ButtonCandidates(texts[|texts|..]) == [];
    r := Act(Ok(FallbackSubmit), page);
  }

  /**
   * The inner loop of `findSubmitButton`: probes one text's templates in
   * order; the first found ends the search, otherwise the search goes on
   * with the `rest` of the candidates on the page the probes left.
   */
  method ProbeTemplates(page: Page, selectors: seq<string>, ghost rest: seq<string>) returns (found: Option<string>, after: Page)
    ensures found.Some? ==> SearchButton(page, selectors + rest) == Act(Ok(found.value), after)
    ensures found.None? ==> SearchButton(page, selectors + rest) == SearchButton(after, rest)
  {
    after := page;
    for j := 0 to |selectors|
      invariant SearchButton(page, selectors + rest) == SearchButton(after, selectors[j..] + rest)
    {
      ghost var tail := selectors[j..] + rest;
      assert tail[0] == selectors[j] && tail[1..] == selectors[j + 1..] + rest;
      SearchButtonCons(after, tail);
      var probe := Probe(after, selectors[j]);
      if probe.out.value {
        return Some(selectors[j]), probe.page;
      }
      after := probe.page;
    }
    assert selectors[|selectors|..] + rest == rest;
    found := None;
  }

  // ---------------------------------------------------------------- lifecycle steps

  /** `detectForm`: scrape the elements, pick a field for email, subject and description, then find the submit button. */
  function DetectForm(config: SelectorsConfig, url: string, p: Page): (r: Act<FormMapping>)
    ensures Extends(p, r.page)
    ensures r.out.Thrown? <==> FaultOf(p, Evaluate).Some?
    ensures r.out.Ok? ==>
      var structure := AnalyzeFormStructure(p.screen.elements);
      && r.out.value.platform == Platform && r.out.value.url == url
      && r.out.value.fields == map[
           "email" := DetectField(config, "email", structure),
           "subject" := DetectField(config, "subject", structure),
           "description" := DetectField(config, "description", structure)]
      && r.out.value.submitButton == SubmitButtonFor(config, Scrape(p).page).out.value
      && r.out.value.submitButton != ""
      && r.out.value.successIndicators == Indicators
  {
    var s := Scrape(p);
    if s.out.Thrown? then Act(Thrown(s.out.message), s.page)
    else
      var structure := AnalyzeFormStructure(s.out.value);
      var fields := map[
        "email" := DetectField(config, "email", structure),
        "subject" := DetectField(config, "subject", structure),
        "description" := DetectField(config, "description", structure)];
      var b := SubmitButtonFor(config, s.page);
      SubmitButtonChoice(config, s.page);
      ExtendsTransitive(p, s.page, b.page);
      Act(Ok(FormMapping(Platform, url, fields, b.out.value, Indicators)), b.page)
  }

  /** The selectors a stretch of calls looks up with `page.$`, in order. */
  function Lookups(log: seq<Call>): seq<string>
  {
    if log == [] then []
    else Lookups(log[..|log| - 1]) + (if log[|log| - 1].QuerySelector? then [log[|log| - 1].selector] else [])
  }

  lemma {:induction false} LookupsAppend(a: seq<Call>, b: seq<Call>)
    ensures Lookups(a + b) == Lookups(a) + Lookups(b)
    decreases |b|
  {
    if b == [] {
      assert a + b == a;
    } else {
      var b' := b[..|b| - 1];
      assert (a + b)[..|a + b| - 1] == a + b';
      LookupsAppend(a, b');
    }
  }

  /** The calls from `l0` on, through `l1` to `l2`, are the two stretches one after the other. */
  lemma SliceChain(l0: seq<Call>, l1: seq<Call>, l2: seq<Call>)
    requires |l0| <= |l1| <= |l2| && l1[..|l0|] == l0 && l2[..|l1|] == l1
    ensures l2[|l0|..] == l1[|l0|..] + l2[|l1|..]
  {
    assert l2[..|l1|][|l0|..] == l1[|l0|..];
  }

  /** The selector filling `key` looks up: none when the field is missing or its selector empty. */
  function Filled(m: FormMapping, key: string): seq<string>
  {
    if key in m.fields && m.fields[key].selector != "" then [m.fields[key].selector] else []
  }

  /** Fills one detected field when its selector is non-empty, ignoring whether the fill happened. */
  function FillDetected(p: Page, m: FormMapping, key: string, value: string): (r: Page)
    ensures Extends(p, r)
    ensures key !in m.fields || m.fields[key].selector == "" ==> r == p
    ensures key in m.fields && m.fields[key].selector != "" ==>
      |r.log| > |p.log| && r.log[|p.log|] == QuerySelector(m.fields[key].selector)
    ensures key in m.fields && m.fields[key].selector != "" ==>
      r.log == p.log + AttemptCalls(p, m.fields[key].selector, TryFill, Some(value))
  {
    if key in m.fields && m.fields[key].selector != "" then
      var sel := m.fields[key].selector;
      TrySelectorsLog(p, p, [sel], TryFill, Some(value));
      var a := TrySelectors(p, [sel], TryFill, Some(value));
      assert Tried(p, [sel], TryFill, Some(value)) == [sel];
      assert AllAttemptCalls(p, [sel], TryFill, Some(value)) == AttemptCalls(p, sel, TryFill, Some(value));
      a.page
    else p
  }

  lemma LookupsOne(c: Call)
    ensures Lookups([c]) == if c.QuerySelector? then [c.selector] else []
  {
    assert [c][..0] == [];
  }

  /** One attempt looks up its selector once, whatever it then does. */
  lemma AttemptLookups(p: Page, sel: string, action: TryAction, value: Option<string>)
    ensures Lookups(AttemptCalls(p, sel, action, value)) == [sel]
  {
    var calls := AttemptCalls(p, sel, action, value);
    LookupsOne(QuerySelector(sel));
    if |calls| == 2 {
      LookupsOne(calls[1]);
      LookupsAppend([calls[0]], [calls[1]]);
      assert calls == [calls[0]] + [calls[1]];
    }
  }

  /** Filling one detected field looks up its selector exactly when that selector is non-empty. */
  lemma FillDetectedLookups(p: Page, m: FormMapping, key: string, value: string)
    ensures Lookups(FillDetected(p, m, key, value).log[|p.log|..]) == Filled(m, key)
  {
    var r := FillDetected(p, m, key, value);
    if key in m.fields && m.fields[key].selector != "" {
      var calls := AttemptCalls(p, m.fields[key].selector, TryFill, Some(value));
      assert r.log[|p.log|..] == calls;
      AttemptLookups(p, m.fields[key].selector, TryFill, Some(value));
    } else {
      assert r.log[|p.log|..] == [];
    }
  }

  /**
   * `fillForm`: detects the form again, then fills email, subject and
   * description in that order, each only if its selector is non-empty. A
   * missing element never aborts the fill: only detection can throw.
   */
  function FillForm(config: SelectorsConfig, url: string, p: Page, ticket: TicketData): (r: Act<()>)
    ensures Extends(p, r.page)
    ensures r.out.Thrown? <==> FaultOf(p, Evaluate).Some?
  {
    var m := DetectForm(config, url, p);
    if m.out.Thrown? then Act(Thrown(m.out.message), m.page)
    else
      var filled := FillFields(m.page, m.out.value, ticket);
      ExtendsTransitive(p, m.page, filled);
      Act(Ok(()), filled)
  }

  /** The three fills of `fillForm`: email, subject, then description. */
  function FillFields(p: Page, m: FormMapping, ticket: TicketData): (r: Page)
    ensures Extends(p, r)
  {
    var p1 := FillDetected(p, m, "email", ticket.email);
    var p2 := FillDetected(p1, m, "subject", ticket.subject);
    var p3 := FillDetected(p2, m, "description", ticket.description);
    ExtendsTransitive(p, p1, p2);
    ExtendsTransitive(p, p2, p3);
    p3
  }

  /**
   * The fills look up exactly the non-empty selectors of the email, subject
   * and description fields, in that order.
   */
  lemma FillFieldsOrder(p: Page, m: FormMapping, ticket: TicketData)
    ensures Lookups(FillFields(p, m, ticket).log[|p.log|..]) == Filled(m, "email") + Filled(m, "subject") + Filled(m, "description")
  {
    var p1 := FillDetected(p, m, "email", ticket.email);
    var p2 := FillDetected(p1, m, "subject", ticket.subject);
    var p3 := FillDetected(p2, m, "description", ticket.description);
    FillDetectedLookups(p, m, "email", ticket.email);
    FillDetectedLookups(p1, m, "subject", ticket.subject);
    FillDetectedLookups(p2, m, "description", ticket.description);
    SliceChain(p.log, p1.log, p2.log);
    SliceChain(p.log, p2.log, p3.log);
    LookupsAppend(p1.log[|p.log|..], p2.log[|p1.log|..]);
    LookupsAppend(p2.log[|p.log|..], p3.log[|p2.log|..]);
  }

  /**
   * After detection, `fillForm` looks up exactly the non-empty selectors of
   * the email, subject and description fields, in that order.
   */
  lemma FillFormOrder(config: SelectorsConfig, url: string, p: Page, ticket: TicketData)
    ensures var m := DetectForm(config, url, p);
      FillForm(config, url, p, ticket).out.Ok? ==>
        && m.out.Ok?
        && Lookups(FillForm(config, url, p, ticket).page.log[|m.page.log|..])
           == Filled(m.out.value, "email") + Filled(m.out.value, "subject") + Filled(m.out.value, "description")
  {
    var m := DetectForm(config, url, p);
    if m.out.Ok? {
      FillFieldsOrder(m.page, m.out.value, ticket);
    }
  }

  /**
   * `submitForm`: find the button, wait for it and click it, then wait
   * three seconds. It succeeds exactly when none of the three calls
   * throws, and otherwise rethrows the first fault.
   */
  function SubmitForm(config: SelectorsConfig, p: Page): (r: Act<()>)
    ensures Extends(p, r.page)
    ensures var b := SubmitButtonFor(config, p).out.value;
      var wait := FaultOf(p, WaitForSelector(b, DefaultTimeout));
      var click := FaultOf(p, Click(b));
      var pause := FaultOf(p, WaitForTimeout(3000));
      && (r.out.Ok? <==> wait.None? && click.None? && pause.None?)
      && (wait.Some? ==> r.out == Thrown(wait.value))
      && (wait.None? && click.Some? ==> r.out == Thrown(click.value))
      && (wait.None? && click.None? && pause.Some? ==> r.out == Thrown(pause.value))
    ensures r.out.Ok? ==>
      var b := SubmitButtonFor(config, p).out.value;
      |r.page.log| >= 3
      && r.page.log[|r.page.log| - 3..] == [WaitForSelector(b, DefaultTimeout), Click(b), WaitForTimeout(3000)]
  {
    var b := SubmitButtonFor(config, p);
    var c := WaitAndClick(b.page, b.out.value, DefaultTimeout);
    ExtendsTransitive(p, b.page, c.page);
    if c.out.Thrown? then c
    else
      var w := Perform(c.page, WaitForTimeout(3000));
      ExtendsTransitive(p, c.page, w.page);
      w
  }

  /** Some success keyword occurs in the lowercased content. */
  predicate HasSuccessKeyword(content: string)
  {
    exists k :: 0 <= k < |SuccessKeywords| && Contains(ToLower(content), SuccessKeywords[k])
  }

  /**
   * `verifySubmission`: success exactly when the URL differs from the
   * configured one or the content holds a success keyword (in any letter
   * case); the confirmation is present exactly on success, the error
   * exactly on failure.
   */
  function VerifySubmission(url: string, p: Page): (r: Act<SubmissionResult>)
    ensures Extends(p, r.page)
    ensures r.out.Thrown? <==> FaultOf(p, Content).Some?
    ensures r.out.Ok? ==>
      var res := r.out.value;
      && (res.success <==> p.screen.url != url || HasSuccessKeyword(p.screen.content))
      && (res.confirmationMessage.Some? <==> res.success)
      && (res.success ==> res.confirmationMessage == Some("Form submitted successfully"))
      && (res.error.Some? <==> !res.success)
      && (!res.success ==> res.error == Some("Could not confirm submission"))
      && res.platform == Platform && res.ticketId.None? && res.screenshot.None?
  {
    var c := ReadContent(p);
    if c.out.Thrown? then Act(Thrown(c.out.message), c.page)
    else
      var success := c.page.screen.url != url || HasSuccessKeyword(c.out.value);
      Act(Ok(SubmissionResult(
        success,
        None,
        if success then Some("Form submitted successfully") else None,
        None,
        if success then None else Some("Could not confirm submission"),
        Platform)), c.page)
  }
}
