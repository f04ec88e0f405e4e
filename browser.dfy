/**
 * An abstract browser page. The page is a value: what is on screen, an
 * oracle saying which calls throw (and with what message), an oracle
 * saying which screen an action leads to, and the log of every call
 * issued to the page so far. Each page operation returns what it produced
 * (or the message it threw) together with the page afterwards.
 */
module Browser {
  import opened Wrappers

  /** One `input`, `textarea` or `select` element as the DOM reports it. */
  datatype DomElement = DomElement(
    tagName: string,                 // upper case for HTML elements
    typeAttr: Option<string>,        // getAttribute("type")
    nameAttr: Option<string>,        // getAttribute("name")
    id: string,
    className: string,
    placeholderAttr: Option<string>,
    ariaLabelAttr: Option<string>,
    hasRequired: bool,
    visible: bool)

  /** What the page currently shows. */
  datatype Screen = Screen(
    url: string,
    content: string,                 // the serialised HTML returned by content()
    present: set<string>,            // selectors that currently match an element
    texts: map<string, string>,      // textContent of matched selectors; a missing key reads as null
    elements: seq<DomElement>,       // the form elements, in document order
    image: string)                   // the encoded screenshot of this screen

  /** The page calls the agent makes. */
  datatype Call =
    | Goto(url: string, networkIdle: bool)
    | Evaluate
    | QuerySelector(selector: string)
    | Dispose(selector: string)
    | WaitForSelector(selector: string, timeout: nat)
    | Fill(selector: string, text: string)
    | Click(selector: string)
    | SelectOption(selector: string, option: string)
    | WaitForTimeout(ms: int)
    | Content
    | TextContent(selector: string)
    | Screenshot
    | Close

  /** Calls that wait for an element matching their selector and time out without one. */
  predicate NeedsElement(c: Call)
  {
    c.WaitForSelector? || c.Fill? || c.Click? || c.SelectOption? || c.TextContent?
  }

  /** Calls that may move the page to another screen. */
  predicate ChangesScreen(c: Call)
  {
    c.Goto? || c.Fill? || c.Click? || c.SelectOption?
  }

  datatype Page = Page(screen: Screen, faults: map<Call, string>, effects: map<Call, Screen>, log: seq<Call>)

  /** The result of an awaited page operation and the page it leaves behind. */
  datatype Act<+T> = Act(out: Outcome<T>, page: Page)

  function TimeoutMessage(selector: string): string
  {
    "Timeout exceeded waiting for selector " + selector
  }

  /** The message `c` throws on `p`, if it throws. */
  function FaultOf(p: Page, c: Call): Option<string>
  {
    if c in p.faults then Some(p.faults[c])
    else if NeedsElement(c) && c.selector !in p.screen.present then Some(TimeoutMessage(c.selector))
    else None
  }

  /** The screen after `c` succeeds on `p`. */
  function Next(p: Page, c: Call): Screen
  {
    if !ChangesScreen(c) then p.screen
    else if c in p.effects then p.effects[c]
    else if c.Goto? then p.screen.(url := c.url)
    else p.screen
  }

  /** `q` is `p` with more calls logged: the oracles are unchanged and the log only grows. */
  predicate Extends(p: Page, q: Page)
  {
    q.faults == p.faults && q.effects == p.effects && |p.log| <= |q.log| && q.log[..|p.log|] == p.log
  }

  lemma ExtendsTransitive(p: Page, q: Page, r: Page)
    requires Extends(p, q) && Extends(q, r)
    ensures Extends(p, r)
  {
    assert r.log[..|q.log|][..|p.log|] == r.log[..|p.log|];
  }

  /** Two stretches of calls, one after the other, make one stretch. */
  lemma LogChain(l0: seq<Call>, l1: seq<Call>, l2: seq<Call>, x: seq<Call>, y: seq<Call>)
    requires l1 == l0 + x && l2 == l1 + y
    ensures l2 == l0 + (x + y)
  {
  }

  /** Every call issued between `p` and `q` differs from `c`. */
  predicate Avoids(p: Page, q: Page, c: Call)
  {
    Extends(p, q) && c !in q.log[|p.log|..]
  }

  lemma AvoidsTransitive(p: Page, q: Page, r: Page, c: Call)
    requires Avoids(p, q, c) && Avoids(q, r, c)
    ensures Avoids(p, r, c)
  {
    ExtendsTransitive(p, q, r);
    assert r.log[|p.log|..] == q.log[|p.log|..] + r.log[|q.log|..] by {
      assert r.log[..|q.log|] == q.log;
    }
  }

  /** Issues `c`: it is logged, then it either throws or moves the page on. */
  function Perform(p: Page, c: Call): (a: Act<()>)
    ensures a.page.log == p.log + [c] && a.page.faults == p.faults && a.page.effects == p.effects
    ensures Extends(p, a.page)
    ensures a.out.Thrown? <==> FaultOf(p, c).Some?
    ensures a.out.Thrown? ==> a.out.message == FaultOf(p, c).value && a.page.screen == p.screen
    ensures !ChangesScreen(c) ==> a.page.screen == p.screen
    ensures forall d :: d != c ==> Avoids(p, a.page, d)
  {
    assert (p.log + [c])[|p.log|..] == [c];
    var logged := p.(log := p.log + [c]);
    match FaultOf(p, c)
    case Some(m) => Act(Thrown(m), logged)
    case None => Act(Ok(()), logged.(screen := Next(p, c)))
  }

  /** Issues a call that reads `v` from the page. */
  function Read<T>(p: Page, c: Call, v: T): (a: Act<T>)
    requires !ChangesScreen(c)
    ensures a.page == Perform(p, c).page
    ensures a.out.Thrown? <==> FaultOf(p, c).Some?
    ensures a.out.Ok? ==> a.out.value == v
  {
    var r := Perform(p, c);
    if r.out.Thrown? then Act(Thrown(r.out.message), r.page) else Act(Ok(v), r.page)
  }

  /** `page.$(selector)`: whether an element matches. */
  function Query(p: Page, selector: string): Act<bool>
  {
    Read(p, QuerySelector(selector), selector in p.screen.present)
  }

  /** `page.content()`. */
  function ReadContent(p: Page): Act<string>
  {
    Read(p, Content, p.screen.content)
  }

  /** `page.textContent(selector)`: `None` stands for null. */
  function ReadTextContent(p: Page, selector: string): Act<Option<string>>
  {
    Read(p, TextContent(selector), if selector in p.screen.texts then Some(p.screen.texts[selector]) else None)
  }

  /** `page.evaluate(...)` over the form elements. */
  function Scrape(p: Page): Act<seq<DomElement>>
  {
    Read(p, Evaluate, p.screen.elements)
  }

  /** `page.screenshot(...)`. */
  function TakeScreenshot(p: Page): Act<string>
  {
    Read(p, Screenshot, p.screen.image)
  }

  /** Issues `calls` in order, stopping at the first that throws. */
  function RunCalls(p: Page, calls: seq<Call>): Act<()>
    decreases |calls|
  {
    if calls == [] then Act(Ok(()), p)
    else
      var r := Perform(p, calls[0]);
      if r.out.Thrown? then r else RunCalls(r.page, calls[1..])
  }

  /** How many of `calls` `RunCalls` issues: up to and including the first that throws. */
  function IssuedCount(p: Page, calls: seq<Call>): (k: nat)
    ensures 0 < |calls| ==> 1 <= k
    ensures k <= |calls|
    decreases |calls|
  {
    if calls == [] then 0
    else
      var r := Perform(p, calls[0]);
      if r.out.Thrown? then 1 else 1 + IssuedCount(r.page, calls[1..])
  }

  /**
   * Calls run in order and a throwing call stops the rest: the calls issued
   * are a prefix of `calls`, all of them when nothing threw, and at least
   * the one that threw when something did.
   */
  lemma {:induction false} RunCallsInOrder(p: Page, calls: seq<Call>)
    ensures var r := RunCalls(p, calls);
      var k := IssuedCount(p, calls);
      && r.page.log == p.log + calls[..k]
      && (r.out.Ok? ==> k == |calls|)
      && (r.out.Thrown? ==> k >= 1)
    ensures Extends(p, RunCalls(p, calls).page)
    decreases |calls|
  {
    if calls == [] {
      assert calls[..0] == [];
    } else {
      var r := Perform(p, calls[0]);
      if r.out.Thrown? {
        assert calls[..1] == [calls[0]];
      } else {
        var rest := RunCalls(r.page, calls[1..]);
        RunCallsInOrder(r.page, calls[1..]);
        var k := IssuedCount(r.page, calls[1..]);
        assert calls[..k + 1] == [calls[0]] + calls[1..][..k];
        assert RunCalls(p, calls) == rest;
        LogChain(p.log, r.page.log, rest.page.log, [calls[0]], calls[1..][..k]);
        ExtendsTransitive(p, r.page, rest.page);
      }
    }
  }

  /** Running two lists of calls one after the other is running their concatenation. */
  lemma {:induction false} RunCallsAppend(p: Page, a: seq<Call>, b: seq<Call>)
    ensures RunCalls(p, a + b) == (var r := RunCalls(p, a); if r.out.Thrown? then r else RunCalls(r.page, b))
    decreases |a|
  {
    if a == [] {
      assert a + b == b;
    } else {
      assert (a + b)[0] == a[0] && (a + b)[1..] == a[1..] + b;
      var r := Perform(p, a[0]);
      if r.out.Ok? {
        RunCallsAppend(r.page, a[1..], b);
      }
    }
  }

  /** A call that leaves the screen as it is: no navigation and no recorded effect. */
  predicate Stays(p: Page, c: Call)
  {
    !c.Goto? && c !in p.effects
  }

  /**
   * When no call moves the page to another screen, the calls succeed
   * exactly when none of them throws on the page as it is now, and a throw
   * is the fault of the first call that has one.
   */
  lemma {:induction false} RunCallsStable(p: Page, calls: seq<Call>)
    requires forall i :: 0 <= i < |calls| ==> Stays(p, calls[i])
    ensures RunCalls(p, calls).out.Ok? <==> forall i :: 0 <= i < |calls| ==> FaultOf(p, calls[i]).None?
    ensures RunCalls(p, calls).out.Thrown? ==>
      var k := IssuedCount(p, calls);
      1 <= k <= |calls| && FaultOf(p, calls[k - 1]) == Some(RunCalls(p, calls).out.message)
      && forall i :: 0 <= i < k - 1 ==> FaultOf(p, calls[i]).None?
    decreases |calls|
  {
    if calls != [] {
      var r := Perform(p, calls[0]);
      if r.out.Ok? {
        var rest := calls[1..];
        assert r.page.screen == p.screen;
        SameFaults(p, r.page);
        RunCallsStable(r.page, rest);
        assert RunCalls(p, calls) == RunCalls(r.page, rest);
        assert IssuedCount(p, calls) == 1 + IssuedCount(r.page, rest);
        assert forall i :: 0 <= i < |rest| ==> rest[i] == calls[i + 1];
      }
    }
  }

  /** A page with the same fault oracle and the same screen throws the same faults. */
  lemma SameFaults(p: Page, q: Page)
    requires q.faults == p.faults && q.screen == p.screen && q.effects == p.effects
    ensures forall c :: FaultOf(q, c) == FaultOf(p, c) && (Stays(q, c) <==> Stays(p, c))
  {
  }

  /** How many times `c` occurs in a log. */
  function CountCalls(log: seq<Call>, c: Call): nat
  {
    if log == [] then 0 else CountCalls(log[..|log| - 1], c) + (if log[|log| - 1] == c then 1 else 0)
  }

  lemma {:induction false} CountCallsAppend(a: seq<Call>, b: seq<Call>, c: Call)
    ensures CountCalls(a + b, c) == CountCalls(a, c) + CountCalls(b, c)
    decreases |b|
  {
    if b != [] {
      var b' := b[..|b| - 1];
      assert (a + b)[..|a + b| - 1] == a + b';
      CountCallsAppend(a, b', c);
    } else {
      assert a + b == a;
    }
  }

  lemma {:induction false} CountCallsAbsent(log: seq<Call>, c: Call)
    requires c !in log
    ensures CountCalls(log, c) == 0
    decreases |log|
  {
    if log != [] {
      CountCallsAbsent(log[..|log| - 1], c);
    }
  }
}
