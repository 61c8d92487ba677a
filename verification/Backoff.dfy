/** The arithmetic of the connection retry loop: each failed attempt costs one second of settling time and a
    waiting time that grows by a second per attempt up to two minutes. */
module Backoff {

  const DEFAULT_TIMEOUT_SEC := 3
  const MAX_RETRY_DELAY := 120

  function Min(a: nat, b: nat): nat {
    if a < b then a else b
  }

  /** Seconds between the i-th attempt and the next. */
  function RetryDelay(i: nat): nat {
    Min(i, MAX_RETRY_DELAY)
  }

  /** Seconds used up by `k` failed attempts. */
  function RetryDuration(k: nat): nat {
    if k == 0 then 0 else RetryDuration(k - 1) + 1 + RetryDelay(k)
  }

  /** Triangular up to the 120th attempt, then 121 seconds per attempt. */
  lemma {:induction false} RetryDurationClosed(k: nat)
    ensures k <= MAX_RETRY_DELAY ==> 2 * RetryDuration(k) == k * (k + 3)
    ensures k >= MAX_RETRY_DELAY ==> RetryDuration(k) == 7380 + 121 * (k - MAX_RETRY_DELAY)
  {
    if k > 0 {
      RetryDurationClosed(k - 1);
      if k <= MAX_RETRY_DELAY {
        assert k * (k + 3) == (k - 1) * ((k - 1) + 3) + 2 + 2 * k;
      }
    }
  }

  lemma {:induction false} RetryDurationGrows(j: nat, k: nat)
    requires j <= k
    ensures RetryDuration(j) <= RetryDuration(k)
    ensures 2 * k <= RetryDuration(k)
  {
    if j < k {
      RetryDurationGrows(j, k - 1);
    } else if k > 0 {
      RetryDurationGrows(k - 1, k - 1);
    }
  }

  /** `k` is the first number of failures that uses up the timeout. */
  predicate GivesUpAfter(timeout: nat, k: nat) {
    k > 0 && RetryDuration(k - 1) < timeout <= RetryDuration(k)
  }

  /** There is only one such number. */
  lemma GivesUpOnce(timeout: nat, k: nat, j: nat)
    requires GivesUpAfter(timeout, k) && GivesUpAfter(timeout, j)
    ensures j == k
  {
    if j < k {
      RetryDurationGrows(j, k - 1);
    } else if k < j {
      RetryDurationGrows(k, j - 1);
    }
  }

  /** It is at most half the timeout, rounded up, and the timeout is overrun by at most the last waiting time. */
  lemma GivesUpInTime(timeout: nat, k: nat)
    requires GivesUpAfter(timeout, k)
    ensures 2 * k <= timeout + 1
    ensures RetryDuration(k) <= timeout + RetryDelay(k)
  {
    RetryDurationGrows(k - 1, k - 1);
  }

  /** The retry loop of `connect`. `reachable(i)` tells whether attempt i succeeds. The attempts stop at the first
      success, or when the time used up reaches the timeout; the time accounted for is the time slept, apart from the
      second after a successful attempt. The constructor of the client rules out a timeout of zero, with which the
      loop would never give up. */
  method RetryLoop(timeout: nat, reachable: nat -> bool) returns (failed: bool, attempts: nat, slept: nat)
    requires timeout > 0
    ensures attempts > 0 && RetryDuration(attempts - 1) < timeout
    ensures forall i :: 0 <= i < attempts - 1 ==> !reachable(i)
    ensures failed == !reachable(attempts - 1)
    ensures failed ==> GivesUpAfter(timeout, attempts) && slept == RetryDuration(attempts)
    ensures !failed ==> slept == RetryDuration(attempts - 1) + 1
  {
    var retryDelaySec, retryDuration := 1, 0;
    attempts, slept, failed := 0, 0, false;
    while timeout == 0 || retryDuration < timeout
      invariant retryDuration == RetryDuration(attempts) == slept
      invariant retryDelaySec == RetryDelay(attempts + 1)
      invariant attempts > 0 ==> failed && RetryDuration(attempts - 1) < timeout
      invariant forall i :: 0 <= i < attempts ==> !reachable(i)
      decreases timeout - retryDuration
    {
      failed := !reachable(attempts);
      attempts := attempts + 1;
      slept := slept + 1;
      if !failed {
        break;
      }
      retryDuration := retryDuration + 1;
      retryDuration := retryDuration + retryDelaySec;
      slept := slept + retryDelaySec;
      if retryDelaySec < MAX_RETRY_DELAY {
        retryDelaySec := retryDelaySec + 1;
      }
    }
  }

  /** The default timeout of 3 seconds takes two attempts and 5 seconds. */
  lemma DefaultTimeout()
    ensures GivesUpAfter(DEFAULT_TIMEOUT_SEC, 2) && RetryDuration(2) == 5
  {
  }
}
