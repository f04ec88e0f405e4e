/**
 * The retry handler: runs an operation up to a fixed number of attempts,
 * sleeping between attempts with a geometrically growing delay, and
 * reports the last error once every attempt has failed.
 */
module Retry {
  import opened Wrappers
  import opened Strings

  /** How `execute` ends: with the operation's value, with the summary error, or by throwing `undefined`. */
  datatype RetryOutcome<T> = Returned(value: T) | Failed(message: string) | ThrowsUndefined

  function Pow(m: int, k: nat): int
  {
    if k == 0 then 1 else m * Pow(m, k - 1)
  }

  /** The sleeps before the second, third, … attempt: `d`, `d*m`, `d*m*m`, … (`n` of them). */
  function Backoff(d: int, m: int, n: nat): (r: seq<int>)
    ensures |r| == n
    ensures forall k :: 0 <= k < n ==> r[k] == d * Pow(m, k)
  {
    if n == 0 then [] else Backoff(d, m, n - 1) + [d * Pow(m, n - 1)]
  }

  lemma ScaleStep(d: int, m: int, k: nat)
    ensures d * Pow(m, k) * m == d * Pow(m, k + 1)
  {
    assert Pow(m, k + 1) == m * Pow(m, k);
    assert d * Pow(m, k) * m == d * (m * Pow(m, k));
  }

  /** Each sleep is the previous one times the multiplier. */
  lemma BackoffGeometric(d: int, m: int, n: nat)
    ensures forall k :: 0 <= k && k + 1 < n ==> Backoff(d, m, n)[k + 1] == Backoff(d, m, n)[k] * m
  {
    forall k | 0 <= k && k + 1 < n
      ensures Backoff(d, m, n)[k + 1] == Backoff(d, m, n)[k] * m
    {
      ScaleStep(d, m, k);
    }
  }

  /** With the default settings, a run whose three attempts all fail sleeps one second, then two. */
  lemma DefaultSchedule()
    ensures Backoff(1000, 2, 2) == [1000, 2000]
  {
    assert Backoff(1000, 2, 1) == [1000];
  }

  /** The first attempt in `from..n` (attempts count from 1) that does not throw. */
  function FirstOk<T>(fn: nat -> Outcome<T>, from: nat, n: int): (r: Option<nat>)
    ensures r.Some? ==> from <= r.value <= n && fn(r.value).Ok?
    ensures r.Some? ==> forall a :: from <= a < r.value ==> fn(a).Thrown?
    ensures r.None? ==> forall a :: from <= a <= n ==> fn(a).Thrown?
    decreases n - from
  {
    if n < from then None
    else if fn(from).Ok? then Some(from)
    else FirstOk(fn, from + 1, n)
  }

  /** The error `execute` throws after the last failure; the context is shown only when one is given. */
  function FailureMessage(maxRetries: nat, context: Option<string>, last: string): (r: string)
    ensures Truthy(context) ==> r == "Failed after " + NatToString(maxRetries) + " attempts (" + context.value + "): " + last
    ensures !Truthy(context) ==> r == "Failed after " + NatToString(maxRetries) + " attempts: " + last
  {
    "Failed after " + NatToString(maxRetries) + " attempts" + (if Truthy(context) then " (" + context.value + ")" else "") + ": " + last
  }

  /** The summary error keeps the last error's message at its end and its own prefix at its start. */
  lemma FailureMessageParts(maxRetries: nat, context: Option<string>, last: string)
    ensures var r := FailureMessage(maxRetries, context, last);
      && |r| >= 13 + |last|
      && r[..13] == "Failed after "
      && r[|r| - |last|..] == last
      && r[|r| - |last| - 2..|r| - |last|] == ": "
  {
    var head := "Failed after " + NatToString(maxRetries) + " attempts" + (if Truthy(context) then " (" + context.value + ")" else "");
    assert FailureMessage(maxRetries, context, last) == head + ": " + last;
    assert head[..13] == "Failed after ";
  }

  class RetryHandler {
    const maxRetries: int
    const delayMs: int
    const backoffMultiplier: int

    /** The constructor; a missing argument takes the default 3 attempts, 1000 ms and multiplier 2. */
    constructor(maxRetries: Option<int>, delayMs: Option<int>, backoffMultiplier: Option<int>)
      ensures this.maxRetries == if maxRetries.Some? then maxRetries.value else 3
      ensures this.delayMs == if delayMs.Some? then delayMs.value else 1000
      ensures this.backoffMultiplier == if backoffMultiplier.Some? then backoffMultiplier.value else 2
    {
      this.maxRetries := if maxRetries.Some? then maxRetries.value else 3;
      this.delayMs := if delayMs.Some? then delayMs.value else 1000;
      this.backoffMultiplier := if backoffMultiplier.Some? then backoffMultiplier.value else 2;
    }

    /**
     * `execute`: `fn(a)` is what the `a`-th call of the operation does. The
     * first attempt that returns decides the result and no further call is
     * made; when all `maxRetries` attempts throw, the summary error is
     * thrown. It sleeps only between attempts, the `k`-th sleep being
     * `delayMs * backoffMultiplier^k`. With no attempts allowed it throws
     * `undefined` without calling the operation.
     */
    method Execute<T>(fn: nat -> Outcome<T>, context: Option<string>) returns (r: RetryOutcome<T>, calls: nat, sleeps: seq<int>)
      ensures calls <= if maxRetries > 0 then maxRetries else 0
      ensures maxRetries <= 0 ==> r == ThrowsUndefined && calls == 0 && sleeps == []
      ensures maxRetries > 0 && FirstOk(fn, 1, maxRetries).Some? ==>
        var a := FirstOk(fn, 1, maxRetries).value;
        r == Returned(fn(a).value) && calls == a && sleeps == Backoff(delayMs, backoffMultiplier, a - 1)
      ensures maxRetries > 0 && FirstOk(fn, 1, maxRetries).None? ==>
        && r == Failed(FailureMessage(maxRetries, context, fn(maxRetries).message))
        && calls == maxRetries
        && sleeps == Backoff(delayMs, backoffMultiplier, maxRetries - 1)
    {
      var delay := delayMs;
      calls := 0;
      sleeps := [];
      var attempt := 1;
      while attempt <= maxRetries
        invariant attempt == 1 || 1 < attempt <= maxRetries
        invariant calls == attempt - 1
        invariant forall a :: 1 <= a < attempt ==> fn(a).Thrown?
        invariant sleeps == Backoff(delayMs, backoffMultiplier, attempt - 1)
        invariant delay == delayMs * Pow(backoffMultiplier, attempt - 1)
        decreases maxRetries - attempt
      {
        var outcome := fn(attempt);
        calls := calls + 1;
        if outcome.Ok? {
          assert FirstOk(fn, 1, maxRetries) == Some(attempt) by {
            FirstOkAt(fn, 1, attempt, maxRetries);
          }
          r := Returned(outcome.value);
          return;
        }
        if attempt == maxRetries {
          assert FirstOk(fn, 1, maxRetries).None? by {
            NoneOk(fn, 1, maxRetries);
          }
          r := Failed(FailureMessage(maxRetries, context, outcome.message));
          return;
        }
        sleeps := sleeps + [delay];
        ScaleStep(delayMs, backoffMultiplier, attempt - 1);
        delay := delay * backoffMultiplier;
        attempt := attempt + 1;
      }
      r := ThrowsUndefined;
    }
  }

  lemma {:induction false} FirstOkAt<T>(fn: nat -> Outcome<T>, from: nat, a: nat, n: int)
    requires from <= a <= n && fn(a).Ok?
    requires forall b :: from <= b < a ==> fn(b).Thrown?
    ensures FirstOk(fn, from, n) == Some(a)
    decreases a - from
  {
    if from < a {
      FirstOkAt(fn, from + 1, a, n);
    }
  }

  lemma {:induction false} NoneOk<T>(fn: nat -> Outcome<T>, from: nat, n: int)
    requires forall b :: from <= b <= n ==> fn(b).Thrown?
    ensures FirstOk(fn, from, n).None?
    decreases n - from
  {
    if from <= n {
      NoneOk(fn, from + 1, n);
    }
  }
}
