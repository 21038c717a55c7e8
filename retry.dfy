/** `withRetry` from src/utils/retry.js: call an operation until it succeeds,
    waiting baseDelay * 2^k before retry k, and give up with a wrapped error
    once maxRetries retries have been spent or shouldRetry rejects the error.

    The operation is a script of outcomes: `op(i)` is what the i-th call
    (counting from 0) resolves or throws. Sleeping is not performed; the
    delays that would be awaited are returned in order. */
module Retry {
  import opened Common

  /** What one awaited call does: resolve with a value or throw an error. */
  datatype Outcome<+T> = Success(value: T) | Failure(message: string)

  /** The options object; a property that is left out (undefined) is None. */
  datatype RetryOptions = RetryOptions(
    maxRetries: Option<nat>,
    baseDelay: Option<int>,
    shouldRetry: Option<string -> bool>)

  /** `withRetry(fn)` with no options is `withRetry(fn, {})`. */
  const NoOptions: RetryOptions := RetryOptions(None, None, None)

  /** The options after the destructuring defaults have been applied. */
  datatype Policy = Policy(maxRetries: nat, baseDelay: int, shouldRetry: string -> bool)

  /** Everything a call of withRetry does that can be observed: how it settles,
      the delays it sleeps (in order) and how many times it calls the operation. */
  datatype Run<+T> = Run(outcome: Outcome<T>, delays: seq<int>, invocations: nat)

  function ResolveOptions(o: RetryOptions): (p: Policy)
    ensures p.maxRetries == (if o.maxRetries.Some? then o.maxRetries.value else 3)
    ensures p.baseDelay == (if o.baseDelay.Some? then o.baseDelay.value else 1000)
    ensures o.shouldRetry.None? ==> forall m :: p.shouldRetry(m)
    ensures o.shouldRetry.Some? ==> forall m :: p.shouldRetry(m) == o.shouldRetry.value(m)
  {
    Policy(
      if o.maxRetries.Some? then o.maxRetries.value else 3,
      if o.baseDelay.Some? then o.baseDelay.value else 1000,
      if o.shouldRetry.Some? then o.shouldRetry.value else _ => true)
  }

  function Pow2(k: nat): (r: nat)
    ensures r >= 1
  {
    if k == 0 then 1 else 2 * Pow2(k - 1)
  }

  /** The delay awaited before retry number k (counting from 0). */
  function Delay(p: Policy, k: nat): int {
    p.baseDelay * Pow2(k)
  }

  /** The delays before retries k, k+1, ..., k+n-1. */
  function Delays(p: Policy, k: nat, n: nat): (ds: seq<int>)
    ensures |ds| == n
    ensures forall j :: 0 <= j < n ==> ds[j] == Delay(p, k + j)
  {
    seq(n, j requires 0 <= j < n => Delay(p, k + j))
  }

  function Sum(s: seq<int>): int {
    if s == [] then 0 else Sum(s[..|s| - 1]) + s[|s| - 1]
  }

  /** The message of the error thrown when withRetry gives up. */
  function FailureMessage(retryCount: nat, message: string): (m: string)
    ensures |m| > 23 + |message|
    ensures m[..23] == "Operation failed after "
    ensures m[|m| - |message|..] == message
    ensures m[23..|m| - |message|] == NatToString(retryCount) + " retries: "
  {
    "Operation failed after " + NatToString(retryCount) + " retries: " + message
  }

  /** Adds delays already slept and calls already made in front of a run. */
  function Extend<T>(slept: seq<int>, calls: nat, r: Run<T>): Run<T> {
    Run(r.outcome, slept + r.delays, calls + r.invocations)
  }

  /** What withRetry does from the moment its retry counter holds k: call the
      operation once; on success return its value; on an error stop if the
      counter has reached maxRetries or shouldRetry says no, otherwise sleep
      and go on with the counter one higher. */
  function RunFrom<T>(op: nat -> Outcome<T>, p: Policy, k: nat): (r: Run<T>)
    requires k <= p.maxRetries
    ensures 1 <= r.invocations <= p.maxRetries - k + 1
    ensures |r.delays| == r.invocations - 1
    ensures forall j :: 0 <= j < |r.delays| ==> r.delays[j] == Delay(p, k + j)
    decreases p.maxRetries - k
  {
    match op(k)
    case Success(v) => Run(Success(v), [], 1)
    case Failure(m) =>
      if k == p.maxRetries || !p.shouldRetry(m) then
        Run(Failure(FailureMessage(k, m)), [], 1)
      else
        Extend([Delay(p, k)], 1, RunFrom(op, p, k + 1))
  }

  lemma ExtendTwice<T>(slept: seq<int>, calls: nat, d: int, r: Run<T>)
    ensures Extend(slept, calls, Extend([d], 1, r)) == Extend(slept + [d], calls + 1, r)
  {
    assert slept + ([d] + r.delays) == (slept + [d]) + r.delays;
  }

  /** The whole of `withRetry(op, options)`. */
  function RunWithRetry<T>(op: nat -> Outcome<T>, options: RetryOptions): Run<T> {
    RunFrom(op, ResolveOptions(options), 0)
  }

  /** Calls k .. i-1 all threw errors that shouldRetry accepts. */
  ghost predicate RetryableFailures<T>(op: nat -> Outcome<T>, p: Policy, k: nat, i: nat) {
    forall j :: k <= j < i ==> op(j).Failure? && p.shouldRetry(op(j).message)
  }

  /** The loop of withRetry. Each iteration makes one call; the counter and
      the list of slept delays grow by one per retry. */
  method WithRetry<T>(op: nat -> Outcome<T>, options: RetryOptions) returns (r: Run<T>)
    ensures r == RunWithRetry(op, options)
  {
    var p := ResolveOptions(options);
    var retryCount: nat := 0;
    var slept: seq<int> := [];
    var calls: nat := 0;
    while true
      invariant retryCount <= p.maxRetries
      invariant calls == |slept| == retryCount
      invariant RunFrom(op, p, 0) == Extend(slept, calls, RunFrom(op, p, retryCount))
      decreases p.maxRetries - retryCount
    {
      var result := op(retryCount);
      calls := calls + 1;
      match result
      case Success(v) =>
        return Run(Success(v), slept, calls);
      case Failure(m) =>
        if retryCount == p.maxRetries || !p.shouldRetry(m) {
          return Run(Failure(FailureMessage(retryCount, m)), slept, calls);
        }
        var delay := p.baseDelay * Pow2(retryCount);
        assert RunFrom(op, p, retryCount) == Extend([delay], 1, RunFrom(op, p, retryCount + 1));
        ExtendTwice(slept, calls - 1, delay, RunFrom(op, p, retryCount + 1));
        slept := slept + [delay];
        retryCount := retryCount + 1;
    }
  }

  /** After i retryable failures the run continues exactly as it would from
      counter i, preceded by the i delays baseDelay * 2^0 .. baseDelay * 2^(i-1). */
  lemma {:induction false} RetryablePrefix<T>(op: nat -> Outcome<T>, p: Policy, k: nat, i: nat)
    requires k <= i <= p.maxRetries
    requires RetryableFailures(op, p, k, i)
    ensures RunFrom(op, p, k) == Extend(Delays(p, k, i - k), i - k, RunFrom(op, p, i))
    decreases i - k
  {
    if k < i {
      RetryablePrefix(op, p, k + 1, i);
      RetryStep(op, p, k);
      DelaysCons(p, k, i - k);
      ExtendNested(Delay(p, k), Delays(p, k + 1, i - k - 1), i - k - 1, RunFrom(op, p, i));
    } else {
      assert Delays(p, k, 0) == [];
    }
  }

  /** A retryable failure below the limit sleeps once and goes on from k + 1. */
  lemma RetryStep<T>(op: nat -> Outcome<T>, p: Policy, k: nat)
    requires k < p.maxRetries
    requires op(k).Failure? && p.shouldRetry(op(k).message)
    ensures RunFrom(op, p, k) == Extend([Delay(p, k)], 1, RunFrom(op, p, k + 1))
  {
  }

  lemma DelaysCons(p: Policy, k: nat, n: nat)
    requires n > 0
    ensures Delays(p, k, n) == [Delay(p, k)] + Delays(p, k + 1, n - 1)
  {
  }

  lemma ExtendNested<T>(d: int, slept: seq<int>, calls: nat, r: Run<T>)
    ensures Extend([d], 1, Extend(slept, calls, r)) == Extend([d] + slept, calls + 1, r)
  {
    assert [d] + (slept + r.delays) == ([d] + slept) + r.delays;
  }

  /** A first call that succeeds is returned unchanged, with no delay. */
  lemma FirstCallSucceeds<T>(op: nat -> Outcome<T>, p: Policy)
    requires op(0).Success?
    ensures RunFrom(op, p, 0) == Run(Success(op(0).value), [], 1)
  {
  }

  /** The first success at call i <= maxRetries is the result, after exactly
      i + 1 calls and i delays. */
  lemma SuccessAt<T>(op: nat -> Outcome<T>, p: Policy, i: nat)
    requires i <= p.maxRetries
    requires RetryableFailures(op, p, 0, i)
    requires op(i).Success?
    ensures RunFrom(op, p, 0) == Run(Success(op(i).value), Delays(p, 0, i), i + 1)
  {
    RetryablePrefix(op, p, 0, i);
  }

  /** An error that shouldRetry rejects ends the run at once: no further delay,
      and the message carries the current counter and the original message. */
  lemma StopsWhenNotRetryable<T>(op: nat -> Outcome<T>, p: Policy, i: nat)
    requires i <= p.maxRetries
    requires RetryableFailures(op, p, 0, i)
    requires op(i).Failure? && !p.shouldRetry(op(i).message)
    ensures RunFrom(op, p, 0)
         == Run(Failure(FailureMessage(i, op(i).message)), Delays(p, 0, i), i + 1)
  {
    RetryablePrefix(op, p, 0, i);
  }

  lemma {:induction false} SumDelays(p: Policy, n: nat)
    ensures Sum(Delays(p, 0, n)) == p.baseDelay * (Pow2(n) - 1)
  {
    if n > 0 {
      var ds := Delays(p, 0, n);
      assert ds[..n - 1] == Delays(p, 0, n - 1);
      SumDelays(p, n - 1);
      calc {
        Sum(ds);
        Sum(Delays(p, 0, n - 1)) + Delay(p, n - 1);
        p.baseDelay * (Pow2(n - 1) - 1) + p.baseDelay * Pow2(n - 1);
        { assert Pow2(n) == 2 * Pow2(n - 1); }
        p.baseDelay * (Pow2(n) - 1);
      }
    } else {
      assert Delays(p, 0, 0) == [];
    }
  }

  /** An operation that always fails, under a shouldRetry that always agrees,
      is called exactly maxRetries + 1 times; the run sleeps baseDelay * 2^k
      before retry k, baseDelay * (2^maxRetries - 1) in all, and throws
      "Operation failed after <maxRetries> retries: <last message>". */
  lemma AlwaysFailing<T>(op: nat -> Outcome<T>, p: Policy)
    requires forall j :: op(j).Failure?
    requires forall m :: p.shouldRetry(m)
    ensures var r := RunFrom(op, p, 0);
      && r.invocations == p.maxRetries + 1
      && r.outcome == Failure(FailureMessage(p.maxRetries, op(p.maxRetries).message))
      && r.delays == Delays(p, 0, p.maxRetries)
      && Sum(r.delays) == p.baseDelay * (Pow2(p.maxRetries) - 1)
  {
    RetryablePrefix(op, p, 0, p.maxRetries);
    SumDelays(p, p.maxRetries);
  }

  /** `withRetry(fn)` with no options: at most four calls, with 1000, 2000 and
      4000 ms of sleep before the retries that happen. */
  lemma DefaultRetries<T>(op: nat -> Outcome<T>)
    ensures var r := RunWithRetry(op, NoOptions);
      1 <= r.invocations <= 4 && r.delays == [1000, 2000, 4000][..r.invocations - 1]
  {
    var p := ResolveOptions(NoOptions);
    assert Delay(p, 0) == 1000 && Delay(p, 1) == 2000 && Delay(p, 2) == 4000 by {
      assert Pow2(1) == 2 && Pow2(2) == 4;
    }
  }
}
