/**
 * How long the sender waits after a rate-limited answer (429). The server's
 * `retry_after` is in milliseconds; the configured backoff is in seconds.
 */
module Backoff {
  import opened Wrappers

  /**
   * As written: the configured backoff is used as the fallback before the
   * division by 1000, so a backoff in seconds is read as milliseconds.
   */
  function RateLimitWaitAsWritten(retryAfterMs: Option<real>, backoffSeconds: real): (seconds: real)
    ensures retryAfterMs.Some? ==> seconds * 1000.0 == retryAfterMs.value
    ensures retryAfterMs.None? ==> seconds * 1000.0 == backoffSeconds
  {
    (if retryAfterMs.Some? then retryAfterMs.value else backoffSeconds) / 1000.0
  }

  /** As intended: only the server's value is converted; the fallback is already in seconds. */
  function RateLimitWait(retryAfterMs: Option<real>, backoffSeconds: real): (seconds: real)
    ensures retryAfterMs.None? ==> seconds == backoffSeconds
    ensures retryAfterMs.Some? ==> seconds * 1000.0 == retryAfterMs.value
  {
    if retryAfterMs.Some? then retryAfterMs.value / 1000.0 else backoffSeconds
  }

  /**
   * The discrepancy: a 429 without `retry_after` and the default backoff of
   * 60 seconds waits 0.06 seconds as written, and 60 seconds as intended;
   * for every non-zero backoff the two differ.
   */
  lemma DefaultBackoffShrunk(backoffSeconds: real)
    requires backoffSeconds != 0.0
    ensures RateLimitWaitAsWritten(None, backoffSeconds) == backoffSeconds / 1000.0 != RateLimitWait(None, backoffSeconds)
    ensures RateLimitWaitAsWritten(None, 60.0) == 0.06 && RateLimitWait(None, 60.0) == 60.0
  {
  }

  /** The two agree whenever the server sends `retry_after`. */
  lemma ServerValueAgrees(retryAfterMs: real, backoffSeconds: real)
    ensures RateLimitWaitAsWritten(Some(retryAfterMs), backoffSeconds) == RateLimitWait(Some(retryAfterMs), backoffSeconds)
  {
  }
}
