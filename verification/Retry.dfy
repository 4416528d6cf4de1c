/** The bounded retry of the remote client (verilore_sdk.py). */
module Retry {
  import opened Common

  /** What one HTTP attempt comes to. */
  datatype Attempt = Timeout | TransportError | Response(status: nat)

  /** What the call returns or raises, with the number of attempts it reports. */
  datatype Result = Returned(status: nat, attempts: nat) | RaisedTimeout(attempts: nat) | RaisedTransport(attempts: nat)

  predicate IsSuccess(status: nat) {
    200 <= status < 300
  }

  predicate IsRetryableStatus(status: nat) {
    status == 502 || status == 503 || status == 504
  }

  /** An outcome that is retried while attempts are left. */
  predicate Retryable(a: Attempt) {
    match a
    case Response(status) => status == 502 || status == 503 || status == 504
    case _ => true
  }

  function Pow2(n: nat): nat {
    if n == 0 then 1 else 2 * Pow2(n - 1)
  }

  /** The attempt that decides: the first that is not retried, or the last that is allowed. */
  ghost predicate Decides(outcomes: nat -> Attempt, retries: nat, a: nat) {
    1 <= a <= retries + 1 &&
    (forall i :: 1 <= i < a ==> Retryable(outcomes(i))) &&
    (a <= retries ==> !Retryable(outcomes(a)))
  }

  function Final(outcome: Attempt, attempt: nat): Result {
    match outcome
    case Timeout => RaisedTimeout(attempt)
    case TransportError => RaisedTransport(attempt)
    case Response(status) => Returned(status, attempt)
  }

  /** `_send`: the outcome of attempt `i` is `outcomes(i)`. The call returns or raises what the deciding
      attempt came to, having slept exactly the sum of the backoffs before it. */
  method Send(outcomes: nat -> Attempt, retries: nat, backoff: real) returns (r: Result, slept: real)
    requires backoff >= 0.0
    ensures exists a: nat :: Decides(outcomes, retries, a) && r == Final(outcomes(a), a) &&
                        slept == backoff * (Pow2(a - 1) - 1) as real
  {
    slept := 0.0;
    var response: Option<nat> := None;
    var attempts := 0;
    for attempt := 1 to retries + 2
      invariant forall i :: 1 <= i < attempt ==> Retryable(outcomes(i))
      invariant attempts == attempt - 1 && attempts <= retries
      invariant slept == backoff * (Pow2(attempt - 1) - 1) as real
    {
      attempts := attempt;
      assert Pow2(attempt) == 2 * Pow2(attempt - 1);
      match outcomes(attempt)
      case Timeout =>
        if attempt <= retries {
          if backoff != 0.0 {
            slept := slept + backoff * Pow2(attempt - 1) as real;
          }
          continue;
        }
        assert Decides(outcomes, retries, attempt);
        return RaisedTimeout(attempt), slept;
      case TransportError =>
        if attempt <= retries {
          if backoff != 0.0 {
            slept := slept + backoff * Pow2(attempt - 1) as real;
          }
          continue;
        }
        assert Decides(outcomes, retries, attempt);
        return RaisedTransport(attempt), slept;
      case Response(status) =>
        response := Some(status);
        if !IsSuccess(status) && IsRetryableStatus(status) && attempt <= retries {
          if backoff != 0.0 {
            slept := slept + backoff * Pow2(attempt - 1) as real;
          }
          continue;
        }
        assert Decides(outcomes, retries, attempt);
        return Returned(status, attempt), slept;
    }
    // The loop always leaves through one of the returns above: the branch for a missing response is dead.
    assert false;
  }

  /** The deciding attempt is unique, so the contract above fixes the result. */
  lemma DecidingAttemptUnique(outcomes: nat -> Attempt, retries: nat, a: nat, b: nat)
    requires Decides(outcomes, retries, a) && Decides(outcomes, retries, b)
    ensures a == b
  {
    assert a < b ==> Retryable(outcomes(a));
    assert b < a ==> Retryable(outcomes(b));
  }
}
