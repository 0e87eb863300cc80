/** Retry timing of failed deliveries: exponential backoff, Retry-After and the one-hour cap. */
module WebhookRetry {
  import opened Wrappers

  const MAX_BACKOFF_SECONDS := 3600

  function Pow2(n: nat): (p: nat)
    ensures p >= 1
  {
    if n == 0 then 1 else 2 * Pow2(n - 1)
  }

  function BackoffSeconds(attemptNumber: int): int {
    Min(3600, 30 * Pow2(Max(0, attemptNumber - 1)))
  }

  /** What a failed attempt learnt from the receiver: status and parsed Retry-After, if any. */
  datatype Answer = Answer(httpStatus: Option<int>, retryAfter: Option<int>)

  function ComputeRetryDelaySeconds(answer: Answer, baseBackoff: int): int {
    var honoured := answer.httpStatus == Some(429) || answer.httpStatus == Some(503);
    var delay :=
      if honoured && answer.retryAfter.Some? then Max(baseBackoff, answer.retryAfter.value)
      else baseBackoff;
    Min(MAX_BACKOFF_SECONDS, Max(1, delay))
  }

  /** The wait that follows failed attempt number attemptNumber. */
  function RetryDelay(attemptNumber: int, answer: Answer): int {
    ComputeRetryDelaySeconds(answer, BackoffSeconds(attemptNumber))
  }

  lemma {:induction false} Pow2Monotone(m: nat, n: nat)
    requires m <= n
    ensures Pow2(m) <= Pow2(n)
    decreases n - m
  {
    if m < n {
      Pow2Monotone(m + 1, n);
    }
  }

  lemma Pow2Seven()
    ensures Pow2(6) == 64 && Pow2(7) == 128
  {
    assert Pow2(3) == 8;
    assert Pow2(5) == 32;
  }

  /** A receiver can lengthen the wait but never shorten it, and from the eighth attempt on it has no say. */
  lemma DelayBounds(n: int, answer: Answer)
    ensures 30 <= RetryDelay(n, answer) <= 3600
    ensures 1 <= n <= 7 ==> 30 * Pow2(n - 1) <= RetryDelay(n, answer)
    ensures n >= 8 ==> RetryDelay(n, answer) == 3600
    ensures answer.retryAfter.None? && 1 <= n <= 7 ==> RetryDelay(n, answer) == 30 * Pow2(n - 1)
  {
    Pow2Seven();
    if 1 <= n <= 7 {
      Pow2Monotone(n - 1, 6);
    } else if n >= 8 {
      Pow2Monotone(7, n - 1);
    }
  }

  /** Retry-After counts on 429 and 503 only, and there it counts in full, up to the cap. */
  lemma RetryAfterHonoured(n: int, status: int, seconds: int)
    ensures var wait := RetryDelay(n, Answer(Some(status), Some(seconds)));
            var plain := RetryDelay(n, Answer(Some(status), None));
            && (wait > plain <==> (status == 429 || status == 503) && seconds > plain && plain < 3600)
            && (wait > plain ==> wait == Min(seconds, 3600))
            && wait >= plain
  {
    DelayBounds(n, Answer(Some(status), None));
  }

  /** Without Retry-After the schedule never speeds up, whatever the statuses were. */
  lemma DelayMonotone(m: int, n: int, first: Answer, second: Answer)
    requires m <= n && first.retryAfter.None? && second.retryAfter.None?
    ensures RetryDelay(m, first) <= RetryDelay(n, second)
  {
    Pow2Monotone(Max(0, m - 1), Max(0, n - 1));
  }

  /** Total wait after failed attempts 1..|answers|. */
  function TotalWait(answers: seq<Answer>): int {
    if answers == [] then 0
    else TotalWait(answers[..|answers| - 1]) + RetryDelay(|answers|, answers[|answers| - 1])
  }

  /** Closed form of the shortest total wait over k retries. */
  function ShortestTotalWait(k: nat): int {
    if k <= 7 then 30 * (Pow2(k) - 1) else 3810 + 3600 * (k - 7)
  }

  lemma {:induction false} TotalWaitBounds(answers: seq<Answer>)
    ensures ShortestTotalWait(|answers|) <= TotalWait(answers) <= 3600 * |answers|
    ensures (forall a | a in answers :: a.retryAfter.None?) ==> TotalWait(answers) == ShortestTotalWait(|answers|)
  {
    var k := |answers|;
    if k > 0 {
      var last := answers[k - 1];
      TotalWaitBounds(answers[..k - 1]);
      DelayBounds(k, last);
      Pow2Seven();
      assert last in answers;
      assert forall a | a in answers[..k - 1] :: a in answers;
    }
  }
}
