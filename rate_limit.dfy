/** The request spacer both content sources keep: at least one second
    between the starts of successive outbound requests. The repository
    source and the article source each hold their own instance. */
module RateLimit {

  const MinDelayMs: nat := 1000

  /** How long `waitIfNeeded` sleeps at time `now` after a request recorded
      at `lastRequest`: the rest of the one-second window, or nothing. */
  function DelayFor(now: int, lastRequest: int): (wait: nat)
    ensures now + wait == if now - lastRequest < MinDelayMs then lastRequest + MinDelayMs else now
  {
    if now - lastRequest < MinDelayMs then MinDelayMs - (now - lastRequest) else 0
  }

  /** The limiter's record before request `k` of a run: its record `last0`
      before the run, or the time request `k - 1` went out. */
  function LastBefore(sentAt: seq<int>, last0: int, k: nat): int
    requires k <= |sentAt|
  {
    if k == 0 then last0 else sentAt[k - 1]
  }

  /** Request `k` of a run went out as soon as the limiter let it, the
      caller having reached the limiter at `start`. */
  predicate LetThrough(sentAt: seq<int>, last0: int, k: nat, start: int)
    requires k < |sentAt|
  {
    sentAt[k] == start + DelayFor(start, LastBefore(sentAt, last0, k))
  }

  class RateLimiter {
    /** Time, in milliseconds, at which the last request was let through. */
    var lastRequest: int

    constructor ()
      ensures lastRequest == 0
    {
      lastRequest := 0;
    }

    /** Sleeps until one second has passed since the last recorded request,
        then records the time it returns at. The clock reads `now` on entry;
        the caller resumes at `now + waited`. */
    method WaitIfNeeded(now: int) returns (waited: nat)
      modifies this
      ensures waited == DelayFor(now, old(lastRequest))
      ensures lastRequest == now + waited
      ensures lastRequest >= old(lastRequest) + MinDelayMs
      ensures lastRequest >= now
    {
      var sinceLast := now - lastRequest;
      waited := 0;
      if sinceLast < MinDelayMs {
        waited := MinDelayMs - sinceLast;
      }
      lastRequest := now + waited;
    }
  }
}
