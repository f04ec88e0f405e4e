/**
 * The page helpers every adapter inherits: wait-then-act, and trying a list
 * of selectors until one works.
 */
module AdapterActions {
  import opened Wrappers
  import opened Browser

  /** The default selector timeout of the wait-then-act helpers, in milliseconds. */
  const DefaultTimeout: nat := 5000

  /**
   * `waitAndFill`: wait for the selector, then fill it. It succeeds exactly
   * when neither call throws; otherwise it rethrows the first fault, and a
   * failed wait means no fill was attempted.
   */
  function WaitAndFill(p: Page, selector: string, value: string, timeout: nat): (r: Act<()>)
    ensures Extends(p, r.page)
    ensures r.out.Ok? <==> FaultOf(p, WaitForSelector(selector, timeout)).None? && FaultOf(p, Fill(selector, value)).None?
    ensures r.out.Ok? ==> r.page.log == p.log + [WaitForSelector(selector, timeout), Fill(selector, value)]
    ensures FaultOf(p, WaitForSelector(selector, timeout)).Some? ==>
      r.out == Thrown(FaultOf(p, WaitForSelector(selector, timeout)).value)
      && r.page.log == p.log + [WaitForSelector(selector, timeout)]
    ensures FaultOf(p, WaitForSelector(selector, timeout)).None? && FaultOf(p, Fill(selector, value)).Some? ==>
      r.out == Thrown(FaultOf(p, Fill(selector, value)).value)
  {
    var w := Perform(p, WaitForSelector(selector, timeout));
    if w.out.Thrown? then w
    else
      var f := Perform(w.page, Fill(selector, value));
      ExtendsTransitive(p, w.page, f.page);
      f
  }

  /** `waitAndFill` issues its two calls as a list run in order would. */
  lemma WaitAndFillCalls(p: Page, selector: string, value: string, timeout: nat)
    ensures WaitAndFill(p, selector, value, timeout) == RunCalls(p, [WaitForSelector(selector, timeout), Fill(selector, value)])
  {
    var calls := [WaitForSelector(selector, timeout), Fill(selector, value)];
    var w := Perform(p, calls[0]);
    if w.out.Ok? {
      assert calls[1..] == [Fill(selector, value)] && calls[1..][1..] == [];
      var f := Perform(w.page, Fill(selector, value));
      if f.out.Ok? {
        assert f.out == Ok(());
        assert RunCalls(f.page, []) == Act(Ok(()), f.page);
      }
      assert RunCalls(w.page, calls[1..]) == f;
    }
  }

  /**
   * `waitAndClick`: wait for the selector, then click it. It succeeds exactly
   * when neither call throws; otherwise it rethrows the first fault, and a
   * failed wait means no click was attempted.
   */
  function WaitAndClick(p: Page, selector: string, timeout: nat): (r: Act<()>)
    ensures Extends(p, r.page)
    ensures r.out.Ok? <==> FaultOf(p, WaitForSelector(selector, timeout)).None? && FaultOf(p, Click(selector)).None?
    ensures r.out.Ok? ==> r.page.log == p.log + [WaitForSelector(selector, timeout), Click(selector)]
    ensures FaultOf(p, WaitForSelector(selector, timeout)).Some? ==>
      r.out == Thrown(FaultOf(p, WaitForSelector(selector, timeout)).value)
      && r.page.log == p.log + [WaitForSelector(selector, timeout)]
    ensures FaultOf(p, WaitForSelector(selector, timeout)).None? && FaultOf(p, Click(selector)).Some? ==>
      r.out == Thrown(FaultOf(p, Click(selector)).value)
  {
    var w := Perform(p, WaitForSelector(selector, timeout));
    if w.out.Thrown? then w
    else
      var c := Perform(w.page, Click(selector));
      ExtendsTransitive(p, w.page, c.page);
      c
  }

  /** The `action` argument of `tryMultipleSelectors`. */
  datatype TryAction = TryFill | TryClick

  /** The call an attempt makes once the element is found: none for a fill without a (truthy) value. */
  function ActionCall(selector: string, action: TryAction, value: Option<string>): Option<Call>
  {
    match action
    case TryFill => if Truthy(value) then Some(Fill(selector, value.value)) else None
    case TryClick => Some(Click(selector))
  }

  /** On a page showing what `p` shows, trying `selector` returns true: the lookup neither throws nor finds nothing, and the action (if any) does not throw. */
  predicate Succeeds(p: Page, selector: string, action: TryAction, value: Option<string>)
  {
    && FaultOf(p, QuerySelector(selector)).None?
    && selector in p.screen.present
    && match ActionCall(selector, action, value)
       case None => true
       case Some(c) => FaultOf(p, c).None?
  }

  /** The calls one attempt issues on a page showing what `p` shows. */
  function AttemptCalls(p: Page, selector: string, action: TryAction, value: Option<string>): seq<Call>
  {
    if FaultOf(p, QuerySelector(selector)).None? && selector in p.screen.present && ActionCall(selector, action, value).Some?
    then [QuerySelector(selector), ActionCall(selector, action, value).value]
    else [QuerySelector(selector)]
  }

  function AllAttemptCalls(p: Page, selectors: seq<string>, action: TryAction, value: Option<string>): seq<Call>
  {
    if selectors == [] then []
    else AttemptCalls(p, selectors[0], action, value) + AllAttemptCalls(p, selectors[1..], action, value)
  }

  /** One turn of the loop: true returns, false continues (a throw is caught and also continues). */
  function Attempt(p: Page, selector: string, action: TryAction, value: Option<string>): (r: Act<bool>)
    ensures r.out.Ok? && Extends(p, r.page)
  {
    var q := Query(p, selector);
    if q.out.Thrown? || !q.out.value then Act(Ok(false), q.page)
    else
      match ActionCall(selector, action, value)
      case None => Act(Ok(true), q.page)
      case Some(c) =>
        var a := Perform(q.page, c);
        ExtendsTransitive(p, q.page, a.page);
        Act(Ok(a.out.Ok?), a.page)
  }

  /** `tryMultipleSelectors` as a function: the specification of the loop below. */
  function TrySelectors(p: Page, selectors: seq<string>, action: TryAction, value: Option<string>): (r: Act<bool>)
    ensures r.out.Ok? && Extends(p, r.page)
    decreases |selectors|
  {
    if selectors == [] then Act(Ok(false), p)
    else
      var a := Attempt(p, selectors[0], action, value);
      if a.out.value then a
      else
        var r := TrySelectors(a.page, selectors[1..], action, value);
        ExtendsTransitive(p, a.page, r.page);
        r
  }

  /** One step of `TrySelectors`: stop at a success, otherwise go on from the page the attempt left. */
  lemma TrySelectorsCons(p: Page, selectors: seq<string>, action: TryAction, value: Option<string>)
    requires selectors != []
    ensures var a := Attempt(p, selectors[0], action, value);
      TrySelectors(p, selectors, action, value)
      == if a.out.value then a else TrySelectors(a.page, selectors[1..], action, value)
  {
  }

  lemma AttemptFacts(p0: Page, p: Page, selector: string, action: TryAction, value: Option<string>)
    requires p.screen == p0.screen && p.faults == p0.faults
    ensures var a := Attempt(p, selector, action, value);
      && (a.out.value <==> Succeeds(p0, selector, action, value))
      && a.page.log == p.log + AttemptCalls(p0, selector, action, value)
      && a.page.faults == p0.faults
      && (!a.out.value ==> a.page.screen == p0.screen)
  {
    assert FaultOf(p, QuerySelector(selector)) == FaultOf(p0, QuerySelector(selector));
    var c := ActionCall(selector, action, value);
    if c.Some? {
      assert FaultOf(p, c.value) == FaultOf(p0, c.value);
    }
  }

  /** The index of the first entry of `xs` that satisfies `ok`. */
  function FirstWhere(ok: string -> bool, xs: seq<string>): (r: Option<nat>)
    ensures r.Some? ==> r.value < |xs| && ok(xs[r.value])
    ensures r.Some? ==> forall j :: 0 <= j < r.value ==> !ok(xs[j])
    ensures r.None? ==> forall j :: 0 <= j < |xs| ==> !ok(xs[j])
    decreases |xs|
  {
    if xs == [] then None
    else if ok(xs[0]) then Some(0)
    else
      match FirstWhere(ok, xs[1..])
      case None => None
      case Some(k) => Some(k + 1)
  }

  lemma FirstWhereCons(ok: string -> bool, xs: seq<string>)
    requires xs != []
    ensures FirstWhere(ok, xs)
      == if ok(xs[0]) then Some(0)
         else match FirstWhere(ok, xs[1..])
              case None => None
              case Some(k) => Some(k + 1)
  {
  }

  /** The entries of `xs` up to and including the first that satisfies `ok`. */
  function TakeThrough(ok: string -> bool, xs: seq<string>): seq<string>
    decreases |xs|
  {
    if xs == [] then []
    else if ok(xs[0]) then [xs[0]]
    else [xs[0]] + TakeThrough(ok, xs[1..])
  }

  lemma {:induction false} TakeThroughPrefix(ok: string -> bool, xs: seq<string>)
    ensures TakeThrough(ok, xs)
      == match FirstWhere(ok, xs)
         case Some(k) => xs[..k + 1]
         case None => xs
    decreases |xs|
  {
    if xs != [] && !ok(xs[0]) {
      var rest := xs[1..];
      TakeThroughPrefix(ok, rest);
      match FirstWhere(ok, rest)
      case Some(k) =>
        assert xs[..k + 2] == [xs[0]] + rest[..k + 1];
      case None =>
        assert xs == [xs[0]] + rest;
    }
  }

  /** `Succeeds` on a page showing what `p0` shows, as a predicate on selectors. */
  function SucceedsOn(p0: Page, action: TryAction, value: Option<string>): string -> bool
  {
    s => Succeeds(p0, s, action, value)
  }

  /** The index of the first selector that succeeds on a page showing what `p0` shows. */
  function FirstSuccess(p0: Page, selectors: seq<string>, action: TryAction, value: Option<string>): (r: Option<nat>)
    ensures r.Some? ==> r.value < |selectors| && Succeeds(p0, selectors[r.value], action, value)
    ensures r.Some? ==> forall j :: 0 <= j < r.value ==> !Succeeds(p0, selectors[j], action, value)
    ensures r.None? ==> forall j :: 0 <= j < |selectors| ==> !Succeeds(p0, selectors[j], action, value)
  {
    FirstWhere(SucceedsOn(p0, action, value), selectors)
  }

  /** The selectors an attempt loop tries: each in turn, up to and including the first that succeeds. */
  function Tried(p0: Page, selectors: seq<string>, action: TryAction, value: Option<string>): seq<string>
  {
    TakeThrough(SucceedsOn(p0, action, value), selectors)
  }

  lemma TriedCons(p0: Page, selectors: seq<string>, action: TryAction, value: Option<string>)
    requires selectors != []
    ensures Succeeds(p0, selectors[0], action, value) ==> Tried(p0, selectors, action, value) == [selectors[0]]
    ensures !Succeeds(p0, selectors[0], action, value)
      ==> Tried(p0, selectors, action, value) == [selectors[0]] + Tried(p0, selectors[1..], action, value)
  {
    assert SucceedsOn(p0, action, value)(selectors[0]) == Succeeds(p0, selectors[0], action, value);
  }

  /** The selectors tried are those up to the first success, or all of them when none succeeds. */
  lemma TriedPrefix(p0: Page, selectors: seq<string>, action: TryAction, value: Option<string>)
    ensures Tried(p0, selectors, action, value)
      == match FirstSuccess(p0, selectors, action, value)
         case Some(k) => selectors[..k + 1]
         case None => selectors
  {
    TakeThroughPrefix(SucceedsOn(p0, action, value), selectors);
  }

  lemma AllAttemptCallsCons(p0: Page, s: string, rest: seq<string>, action: TryAction, value: Option<string>)
    ensures AllAttemptCalls(p0, [s] + rest, action, value) == AttemptCalls(p0, s, action, value) + AllAttemptCalls(p0, rest, action, value)
  {
    assert ([s] + rest)[1..] == rest;
  }

  /**
   * `tryMultipleSelectors` returns true exactly when some selector succeeds
   * on the page it starts from.
   */
  lemma {:induction false} TrySelectorsFirstSuccess(p0: Page, p: Page, selectors: seq<string>, action: TryAction, value: Option<string>)
    requires p.screen == p0.screen && p.faults == p0.faults
    ensures TrySelectors(p, selectors, action, value).out.value <==> FirstSuccess(p0, selectors, action, value).Some?
    decreases |selectors|
  {
    if selectors != [] {
      var a := Attempt(p, selectors[0], action, value);
      AttemptFacts(p0, p, selectors[0], action, value);
      if !a.out.value {
        assert TrySelectors(p, selectors, action, value) == TrySelectors(a.page, selectors[1..], action, value);
        TrySelectorsFirstSuccess(p0, a.page, selectors[1..], action, value);
      }
    }
  }

  /**
   * The loop stops at the first selector that succeeds, in list order, and
   * never touches a later one; when none does, every selector was tried
   * once, in order.
   */
  lemma {:induction false} TrySelectorsLog(p0: Page, p: Page, selectors: seq<string>, action: TryAction, value: Option<string>)
    requires p.screen == p0.screen && p.faults == p0.faults
    ensures TrySelectors(p, selectors, action, value).page.log == p.log + AllAttemptCalls(p0, Tried(p0, selectors, action, value), action, value)
    decreases |selectors|
  {
    if selectors != [] {
      var s := selectors[0];
      var rest := selectors[1..];
      var a := Attempt(p, s, action, value);
      AttemptFacts(p0, p, s, action, value);
      TriedCons(p0, selectors, action, value);
      TrySelectorsCons(p, selectors, action, value);
      if a.out.value {
        AllAttemptCallsCons(p0, s, [], action, value);
      } else {
        var r := TrySelectors(a.page, rest, action, value);
        var t := Tried(p0, rest, action, value);
        TrySelectorsLog(p0, a.page, rest, action, value);
        AllAttemptCallsCons(p0, s, t, action, value);
        LogChain(p.log, a.page.log, r.page.log, AttemptCalls(p0, s, action, value), AllAttemptCalls(p0, t, action, value));
      }
    }
  }

  /**
   * `tryMultipleSelectors`: tries each selector in order, skipping one whose
   * lookup or action throws, and returns true at the first whose element
   * exists. It never throws.
   */
  method TryMultipleSelectors(p: Page, selectors: seq<string>, action: TryAction, value: Option<string>) returns (r: Act<bool>)
    ensures r == TrySelectors(p, selectors, action, value)
    ensures r.out.Ok?
    ensures r.out.value <==> FirstSuccess(p, selectors, action, value).Some?
    ensures r.out.value <==> exists k :: 0 <= k < |selectors| && Succeeds(p, selectors[k], action, value)
  {
    TrySelectorsFirstSuccess(p, p, selectors, action, value);
    var page := p;
    for i := 0 to |selectors|
      invariant TrySelectors(p, selectors, action, value) == TrySelectors(page, selectors[i..], action, value)
    {
      assert selectors[i..][0] == selectors[i] && selectors[i..][1..] == selectors[i + 1..];
      var q := Query(page, selectors[i]);
      if q.out.Ok? && q.out.value {
        var call := ActionCall(selectors[i], action, value);
        if call.None? {
          r := Act(Ok(true), q.page);
          return;
        }
        var a := Perform(q.page, call.value);
        if a.out.Ok? {
          r := Act(Ok(true), a.page);
          return;
        }
        page := a.page;
      } else {
        page := q.page;
      }
    }
    r := Act(Ok(false), page);
  }
}
