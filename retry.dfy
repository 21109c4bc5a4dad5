/** `executeWithRetry`, written three times over (dialogue, content
    understanding and voice synthesis services) with the same body: call,
    and on failure count the failure and call again, until a call succeeds
    or `maxRetries` failures have been retried; the failure after that is
    rethrown as it is. Sleeping and backoff jitter are not modelled. */
module Retry {
  import opened Wrappers

  /** The retry budget all three services use. */
  const MaxRetries: nat := 3

  /** `op(k)` is the outcome of the `k`-th call (counting from 0). Returns
      the outcome handed to the caller and how many calls were made. */
  method ExecuteWithRetry<T, E>(op: nat -> Result<T, E>, maxRetries: nat)
    returns (r: Result<T, E>, calls: nat)
    ensures 1 <= calls <= maxRetries + 1
    ensures r == op(calls - 1)
    ensures forall k :: 0 <= k < calls - 1 ==> op(k).Failure?
    ensures r.Failure? ==> calls == maxRetries + 1
  {
    var retries := 0;
    r := op(0);
    while r.Failure? && retries < maxRetries
      invariant 0 <= retries <= maxRetries
      invariant r == op(retries)
      invariant forall k :: 0 <= k < retries ==> op(k).Failure?
      decreases maxRetries - retries
    {
      retries := retries + 1;
      r := op(retries);
    }
    calls := retries + 1;
  }

  /** The outcome is a success exactly when one of the first
      `maxRetries + 1` calls succeeds, and it is then the first success. */
  lemma RetrySucceedsIff<T, E>(op: nat -> Result<T, E>, maxRetries: nat, r: Result<T, E>, calls: nat)
    requires 1 <= calls <= maxRetries + 1 && r == op(calls - 1)
    requires forall k :: 0 <= k < calls - 1 ==> op(k).Failure?
    requires r.Failure? ==> calls == maxRetries + 1
    ensures r.Success? <==> exists k :: 0 <= k <= maxRetries && op(k).Success?
    ensures r.Failure? ==> forall k :: 0 <= k <= maxRetries ==> op(k).Failure?
  {
    if r.Success? {
      assert op(calls - 1).Success?;
    }
  }
}
