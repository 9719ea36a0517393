/** What the two content sources' retry loops share: three attempts and an
    exponential backoff of `2^retries` seconds after the `retries`-th failure. */
module Retry {

  const MaxRetries: nat := 3

  function Pow2(n: nat): (p: nat)
    ensures p >= 1
  {
    if n == 0 then 1 else 2 * Pow2(n - 1)
  }

  /** `Math.pow(2, retries) * 1000`. */
  function BackoffMs(retries: nat): (ms: nat)
    ensures retries == 1 ==> ms == 2000
    ensures retries == 2 ==> ms == 4000
  {
    Pow2(retries) * 1000
  }

  /** The status test both handlers apply before deciding to retry. */
  predicate IsClientCode(status: nat) {
    400 <= status < 500
  }
}
