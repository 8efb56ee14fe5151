/**
 * The client of the asset registry's HTTP API: the retry loop that every
 * request goes through (rate limits answered with 429, server errors with
 * exponential backoff and jitter), the classification of the answers that
 * fetching and updating an object perform, and the expiry check of the
 * per-object timestamps.
 *
 * The network is a sequence of replies, one per request issued; the random
 * jitter is a sequence of amounts, one per request, each what
 * random.uniform(0, 0.1) times the current delay gave;
 * sleeps are recorded in a log instead of being performed; and the clock is
 * a parameter holding whole seconds.
 */
module JiraApi {
  import opened Wrappers

  /** The number of retries after the first request. */
  const MaxRetries: nat := 5

  /** The starting backoff delay, and the wait used when a 429 carries no Retry-After. */
  const InitialDelay: int := 1

  /** The cap on a doubled backoff delay. */
  const MaxDelay: int := 32

  /** Seconds after which an object's timestamp counts as stale. */
  const CacheTimeout: int := 300

  // ---------------------------------------------------------------------------
  // Replies and outcomes
  // ---------------------------------------------------------------------------

  /** The Retry-After header: absent, an integer number of seconds, or text `int()` rejects. */
  datatype RetryAfter = Absent | Seconds(n: int) | NotAnInteger

  /** The part of an object's JSON the client inspects: `objectType.id`, when present. */
  datatype ObjectJson = ObjectJson(objectTypeId: Option<string>)

  /**
   * An HTTP answer: the status, the Retry-After header, whether
   * X-RateLimit-NearLimit is "true", and the body (None when it is not JSON).
   */
  datatype Response = Response(status: int, retryAfter: RetryAfter, nearLimit: bool, body: Option<ObjectJson>)

  /** What one request yields: an answer, or an exception from the transport. */
  datatype Reply = Answered(response: Response) | TransportFailure

  /** The exceptions a request can end in. */
  datatype Failure =
    | TransportError            // raised by the HTTP call itself
    | InvalidRetryAfter         // `int()` rejected the Retry-After header
    | NegativeSleep             // `sleep()` rejected a negative duration
    | RateLimited(retryAfter: int)
    | MaxRetriesExceeded

  datatype Outcome = Returned(response: Response) | Raised(failure: Failure)

  /** The result of a request: its outcome, the requests issued and the sleeps taken, in order. */
  datatype Trace = Trace(outcome: Outcome, attempts: nat, sleeps: seq<real>)

  /** Statuses the loop retries: 429 and every 5xx. */
  predicate Retryable(status: int)
  {
    status == 429 || status >= 500
  }

  /** A jitter random.uniform(0, 0.1) times `delay` can give: between 0 and a tenth of the delay. */
  predicate JitterFits(amount: real, delay: int)
  {
    if delay >= 0 then 0.0 <= amount <= 0.1 * delay as real
    else 0.1 * delay as real <= amount <= 0.0
  }

  // ---------------------------------------------------------------------------
  // The retry loop as a function of its replies
  // ---------------------------------------------------------------------------

  /**
   * _handle_rate_limit: never returns normally.  It raises RateLimited with
   * the Retry-After seconds, 1 when the header is absent, or fails while
   * parsing a header that is not an integer.
   */
  function HandleRateLimit(response: Response): (f: Failure)
    ensures f == InvalidRetryAfter || f.RateLimited?
    ensures f.RateLimited? <==> !response.retryAfter.NotAnInteger?
    ensures response.retryAfter.Absent? ==> f == RateLimited(InitialDelay)
    ensures response.retryAfter.Seconds? ==> f == RateLimited(response.retryAfter.n)
  {
    match response.retryAfter
    case Absent => RateLimited(InitialDelay)
    case Seconds(n) => RateLimited(n)
    case NotAnInteger => InvalidRetryAfter
  }

  /**
   * The delay a 5xx answer sets: the Retry-After seconds as given (no cap),
   * or else the previous delay doubled and capped at MaxDelay; None when the
   * header does not parse.
   */
  function ServerErrorDelay(retryAfter: RetryAfter, delay: int): (next: Option<int>)
    ensures next.None? <==> retryAfter.NotAnInteger?
    ensures retryAfter.Seconds? ==> next == Some(retryAfter.n)
    ensures retryAfter.Absent? ==>
              next.value <= MaxDelay && next.value <= 2 * delay &&
              (next.value == 2 * delay || next.value == MaxDelay)
    ensures retryAfter.Absent? && 0 <= delay ==> 0 <= next.value
  {
    match retryAfter
    case Seconds(n) => Some(n)
    case Absent => Some(if delay * 2 < MaxDelay then delay * 2 else MaxDelay)
    case NotAnInteger => None
  }

  /**
   * How one reply moves the backoff delay: only a 5xx with a usable header
   * changes it, to its Retry-After as given or to the doubled, capped delay.
   */
  function NextDelay(reply: Reply, delay: int): (next: int)
    ensures !(reply.Answered? && reply.response.status >= 500) ==> next == delay
    ensures reply.Answered? && reply.response.status >= 500 && reply.response.retryAfter.Seconds? ==>
              next == reply.response.retryAfter.n
    ensures !(reply.Answered? && reply.response.retryAfter.Seconds?) && 0 <= delay <= MaxDelay ==>
              0 <= next <= MaxDelay && delay <= next
  {
    if reply.Answered? && reply.response.status >= 500 && !reply.response.retryAfter.NotAnInteger?
    then ServerErrorDelay(reply.response.retryAfter, delay).value
    else delay
  }

  /** The seconds a reply's rate-limit error carries: its Retry-After, 1 when absent (0 when there is none). */
  function RateLimitWait(reply: Reply): int
  {
    if reply.Answered? && HandleRateLimit(reply.response).RateLimited? then HandleRateLimit(reply.response).retryAfter
    else 0
  }

  /**
   * The end of one pass through the loop: the request finished the call
   * (with these sleeps after it), or the loop goes on after a sleep with a
   * new backoff delay.
   */
  datatype Step = Finished(outcome: Outcome, sleeps: seq<real>) | Again(sleepTime: real, delay: int)

  /**
   * One pass through the loop body, for the reply of the request at retry
   * number `retry`, the jitter drawn for it and the current delay.
   */
  function Attempt(reply: Reply, jitter: real, retry: nat, delay: int): (s: Step)
    ensures s.Again? ==> reply.Answered? && Retryable(reply.response.status) && 0.0 <= s.sleepTime
    ensures s.Finished? && s.outcome.Returned? <==> reply.Answered? && !Retryable(reply.response.status)
  {
    match reply
    case TransportFailure => Finished(Raised(TransportError), [])
    case Answered(response) =>
      if response.status == 429 then
        var failure := HandleRateLimit(response);
        if !failure.RateLimited? || retry >= MaxRetries then Finished(Raised(failure), [])
        else if failure.retryAfter < 0 then Finished(Raised(NegativeSleep), [])
        else Again(failure.retryAfter as real, delay)
      else if response.status >= 500 then
        match ServerErrorDelay(response.retryAfter, delay)
        case None => Finished(Raised(InvalidRetryAfter), [])
        case Some(next) =>
          var sleepTime := next as real + jitter;
          if sleepTime < 0.0 then Finished(Raised(NegativeSleep), [])
          else Again(sleepTime, next)
      else
        Finished(Returned(response), if response.nearLimit then [1.0] else [])
  }

  /**
   * What one pass decides.  The loop goes on only after a retryable answer,
   * with a sleep sleep() accepts and the delay NextDelay gives; a 429 goes on
   * only before the last retry, sleeping exactly its Retry-After.  An answer
   * that is not retried is returned, after one second when the rate limit is
   * near; a transport exception, and a retryable answer whose Retry-After
   * does not parse, are raised at once; a rate-limit error is raised exactly
   * for a parsable 429 at the last retry.
   */
  lemma AttemptFacts(reply: Reply, jitter: real, retry: nat, delay: int)
    ensures var s := Attempt(reply, jitter, retry, delay);
      (s.Again? ==>
         reply.Answered? && Retryable(reply.response.status) &&
         s.sleepTime >= 0.0 && s.delay == NextDelay(reply, delay)) &&
      (s.Again? && reply.response.status == 429 ==>
         retry < MaxRetries && s.sleepTime == RateLimitWait(reply) as real) &&
      (s.Finished? && s.outcome.Returned? <==> reply.Answered? && !Retryable(reply.response.status)) &&
      (s.Finished? && s.outcome.Returned? ==>
         s.outcome.response == reply.response &&
         s.sleeps == (if reply.response.nearLimit then [1.0] else [])) &&
      (s.Finished? && s.outcome.Raised? ==> s.sleeps == []) &&
      (s == Finished(Raised(TransportError), []) <==> reply.TransportFailure?) &&
      (reply.Answered? && Retryable(reply.response.status) && reply.response.retryAfter.NotAnInteger? <==>
         s == Finished(Raised(InvalidRetryAfter), [])) &&
      (s.Finished? && s.outcome.Raised? && s.outcome.failure.RateLimited? <==>
         reply.Answered? && reply.response.status == 429 && retry >= MaxRetries &&
         !reply.response.retryAfter.NotAnInteger?) &&
      (s.Finished? ==> s.outcome != Raised(MaxRetriesExceeded))
  {
  }

  /** A trace continued after `attempts` requests and `sleeps` already taken. */
  function Resume(attempts: nat, sleeps: seq<real>, rest: Trace): Trace
  {
    Trace(rest.outcome, attempts + rest.attempts, sleeps + rest.sleeps)
  }

  /** The sleeps taken after the last request: the near-limit second, or the last backoff. */
  function FinalSleeps(outcome: Outcome): nat
  {
    if outcome == Raised(MaxRetriesExceeded) || (outcome.Returned? && outcome.response.nearLimit) then 1 else 0
  }

  /**
   * What _make_request does from retry number `retry` on, with `delay` the
   * current backoff delay, reading the reply of request k from `replies[k]`
   * and the jitter of request k from `jitter[k]`.  At most
   * MaxRetries + 1 requests are made in all, and one sleep follows every
   * request but the last, plus one after the last in the two cases
   * FinalSleeps names.
   */
  function Run(replies: seq<Reply>, jitter: seq<real>, retry: nat, delay: int): (t: Trace)
    requires |replies| > MaxRetries && |jitter| > MaxRetries
    requires retry <= MaxRetries + 1
    ensures retry <= MaxRetries ==> 1 <= t.attempts
    ensures retry + t.attempts <= MaxRetries + 1
    ensures |t.sleeps| == t.attempts - 1 + FinalSleeps(t.outcome)
    decreases MaxRetries + 1 - retry
  {
    if retry > MaxRetries then Trace(Raised(MaxRetriesExceeded), 0, [])
    else
      match Attempt(replies[retry], jitter[retry], retry, delay)
      case Finished(outcome, sleeps) => Trace(outcome, 1, sleeps)
      case Again(sleepTime, next) => Resume(1, [sleepTime], Run(replies, jitter, retry + 1, next))
  }

  /** A pass that finishes the call makes it a one-request run. */
  lemma RunFinishes(replies: seq<Reply>, jitter: seq<real>, retry: nat, delay: int, outcome: Outcome, sleeps: seq<real>)
    requires |replies| > MaxRetries && |jitter| > MaxRetries && retry <= MaxRetries
    requires Attempt(replies[retry], jitter[retry], retry, delay) == Finished(outcome, sleeps)
    ensures Run(replies, jitter, retry, delay) == Trace(outcome, 1, sleeps)
  {
  }

  /** A pass that goes on makes the run one request and one sleep longer than the run from the next request. */
  lemma RunContinues(replies: seq<Reply>, jitter: seq<real>, retry: nat, delay: int, sleepTime: real, next: int)
    requires |replies| > MaxRetries && |jitter| > MaxRetries && retry <= MaxRetries
    requires Attempt(replies[retry], jitter[retry], retry, delay) == Again(sleepTime, next)
    ensures Run(replies, jitter, retry, delay) == Resume(1, [sleepTime], Run(replies, jitter, retry + 1, next))
  {
  }

  /**
   * A pass that goes on adds one request and one sleep to what was done
   * before it, and leaves the rest to the run from the next request.
   */
  lemma RunGoesOn(replies: seq<Reply>, jitter: seq<real>, retry: nat, delay: int, sleepTime: real, next: int,
                  sleeps: seq<real>, whole: Trace)
    requires |replies| > MaxRetries && |jitter| > MaxRetries && retry <= MaxRetries
    requires Attempt(replies[retry], jitter[retry], retry, delay) == Again(sleepTime, next)
    requires whole == Resume(retry, sleeps, Run(replies, jitter, retry, delay))
    ensures whole == Resume(retry + 1, sleeps + [sleepTime], Run(replies, jitter, retry + 1, next))
  {
    var rest := Run(replies, jitter, retry + 1, next);
    RunContinues(replies, jitter, retry, delay, sleepTime, next);
    assert sleeps + ([sleepTime] + rest.sleeps) == sleeps + [sleepTime] + rest.sleeps;
  }

  /** A pass that finishes the call ends the run after `retry` earlier passes and their sleeps. */
  lemma RunEnds(replies: seq<Reply>, jitter: seq<real>, retry: nat, delay: int, outcome: Outcome, last: seq<real>,
                sleeps: seq<real>, whole: Trace)
    requires |replies| > MaxRetries && |jitter| > MaxRetries && retry <= MaxRetries
    requires Attempt(replies[retry], jitter[retry], retry, delay) == Finished(outcome, last)
    requires whole == Resume(retry, sleeps, Run(replies, jitter, retry, delay))
    ensures whole == Trace(outcome, retry + 1, sleeps + last)
  {
    RunFinishes(replies, jitter, retry, delay, outcome, last);
  }

  /** What one pass of the loop leaves of a run resumed after `retry` earlier passes and their sleeps. */
  lemma PassStep(replies: seq<Reply>, jitter: seq<real>, retry: nat, delay: int, sleeps: seq<real>, whole: Trace)
    requires |replies| > MaxRetries && |jitter| > MaxRetries && retry <= MaxRetries
    requires whole == Resume(retry, sleeps, Run(replies, jitter, retry, delay))
    ensures match Attempt(replies[retry], jitter[retry], retry, delay)
      case Finished(outcome, last) => whole == Trace(outcome, retry + 1, sleeps + last)
      case Again(sleepTime, next) => whole == Resume(retry + 1, sleeps + [sleepTime], Run(replies, jitter, retry + 1, next))
  {
    match Attempt(replies[retry], jitter[retry], retry, delay)
    case Finished(outcome, last) =>
      RunEnds(replies, jitter, retry, delay, outcome, last, sleeps, whole);
    case Again(sleepTime, next) =>
      RunGoesOn(replies, jitter, retry, delay, sleepTime, next, sleeps, whole);
  }

  /** Resuming from the first request with nothing done yet is the run itself. */
  lemma ResumeFromStart(t: Trace)
    ensures Resume(0, [], t) == t
  {
    assert [] + t.sleeps == t.sleeps;
  }

  /** Once every retry is used up the run ends with "max retries exceeded". */
  lemma RunExhausted(replies: seq<Reply>, jitter: seq<real>, delay: int, sleeps: seq<real>, whole: Trace)
    requires |replies| > MaxRetries && |jitter| > MaxRetries
    requires whole == Resume(MaxRetries + 1, sleeps, Run(replies, jitter, MaxRetries + 1, delay))
    ensures whole == Trace(Raised(MaxRetriesExceeded), MaxRetries + 1, sleeps)
  {
    assert sleeps + [] == sleeps;
  }

  /** The reply of the last request a run made. */
  function LastReply(replies: seq<Reply>, retry: nat, t: Trace): Reply
    requires 1 <= t.attempts && retry + t.attempts <= |replies|
  {
    replies[retry + t.attempts - 1]
  }

  /** A pass that goes on leaves the outcome and the last reply to the run from the next request. */
  lemma LastReplyOfRest(replies: seq<Reply>, jitter: seq<real>, retry: nat, delay: int, sleepTime: real, next: int)
    requires |replies| > MaxRetries && |jitter| > MaxRetries && retry < MaxRetries
    requires Attempt(replies[retry], jitter[retry], retry, delay) == Again(sleepTime, next)
    ensures var t := Run(replies, jitter, retry, delay);
      var rest := Run(replies, jitter, retry + 1, next);
      t.outcome == rest.outcome && t.attempts == rest.attempts + 1 &&
      LastReply(replies, retry, t) == LastReply(replies, retry + 1, rest)
  {
    RunContinues(replies, jitter, retry, delay, sleepTime, next);
  }

  /**
   * How the replies decide a run.  Every request but the last was answered
   * with a retryable status.  The call returns exactly when the last reply
   * is an answer with a status that is not retried, and returns that
   * answer; a transport exception propagates at once, and so does a
   * Retry-After that does not parse; running out of retries needs a 5xx as
   * the sixth answer, and a 429 as the sixth answer is raised as a
   * rate-limit error instead.
   */
  lemma {:induction false} LastReplyDecides(replies: seq<Reply>, jitter: seq<real>, retry: nat, delay: int)
    requires |replies| > MaxRetries && |jitter| > MaxRetries && retry <= MaxRetries
    ensures var t := Run(replies, jitter, retry, delay);
      (t.outcome.Returned? <==>
         LastReply(replies, retry, t).Answered? && !Retryable(LastReply(replies, retry, t).response.status)) &&
      (t.outcome.Returned? ==> LastReply(replies, retry, t) == Answered(t.outcome.response)) &&
      (t.outcome == Raised(TransportError) <==> LastReply(replies, retry, t).TransportFailure?) &&
      (t.outcome == Raised(InvalidRetryAfter) <==>
         LastReply(replies, retry, t).Answered? && Retryable(LastReply(replies, retry, t).response.status) &&
         LastReply(replies, retry, t).response.retryAfter.NotAnInteger?) &&
      (t.outcome == Raised(MaxRetriesExceeded) ==>
         retry + t.attempts == MaxRetries + 1 &&
         LastReply(replies, retry, t).Answered? && LastReply(replies, retry, t).response.status >= 500) &&
      (t.outcome.Raised? && t.outcome.failure.RateLimited? ==>
         retry + t.attempts == MaxRetries + 1 &&
         LastReply(replies, retry, t).Answered? && LastReply(replies, retry, t).response.status == 429)
    decreases MaxRetries - retry
  {
    match Attempt(replies[retry], jitter[retry], retry, delay)
    case Finished(outcome, sleeps) =>
      AttemptFacts(replies[retry], jitter[retry], retry, delay);
      RunFinishes(replies, jitter, retry, delay, outcome, sleeps);
    case Again(sleepTime, next) =>
      RunContinues(replies, jitter, retry, delay, sleepTime, next);
      if retry == MaxRetries {
        AttemptFacts(replies[retry], jitter[retry], retry, delay);
      } else {
        LastReplyDecides(replies, jitter, retry + 1, next);
        LastReplyOfRest(replies, jitter, retry, delay, sleepTime, next);
      }
  }

  /** Request `k` of a run, if it is not the last one, was answered with a retryable status. */
  lemma {:induction false} RetriedReplyRetryable(replies: seq<Reply>, jitter: seq<real>, retry: nat, delay: int, k: int)
    requires |replies| > MaxRetries && |jitter| > MaxRetries && retry <= MaxRetries + 1
    requires retry <= k < retry + Run(replies, jitter, retry, delay).attempts - 1
    ensures replies[k].Answered? && Retryable(replies[k].response.status)
    decreases k - retry
  {
    match Attempt(replies[retry], jitter[retry], retry, delay)
    case Finished(outcome, sleeps) =>
      RunFinishes(replies, jitter, retry, delay, outcome, sleeps);
    case Again(sleepTime, next) =>
      RunContinues(replies, jitter, retry, delay, sleepTime, next);
      if k == retry {
        AttemptFacts(replies[retry], jitter[retry], retry, delay);
      } else {
        RetriedReplyRetryable(replies, jitter, retry + 1, next, k);
      }
  }

  /** Every request before the last one of a run was answered with a retryable status. */
  lemma RetriedRepliesRetryable(replies: seq<Reply>, jitter: seq<real>, retry: nat, delay: int)
    requires |replies| > MaxRetries && |jitter| > MaxRetries && retry <= MaxRetries + 1
    ensures var t := Run(replies, jitter, retry, delay);
      forall k :: retry <= k < retry + t.attempts - 1 ==>
        replies[k].Answered? && Retryable(replies[k].response.status)
  {
    var t := Run(replies, jitter, retry, delay);
    forall k | retry <= k < retry + t.attempts - 1
      ensures replies[k].Answered? && Retryable(replies[k].response.status)
    {
      RetriedReplyRetryable(replies, jitter, retry, delay, k);
    }
  }

  // ---------------------------------------------------------------------------
  // The backoff delay, request by request
  // ---------------------------------------------------------------------------

  /** The backoff delay once the replies of requests `start` to `stop` - 1 have been seen. */
  function DelayAt(replies: seq<Reply>, delay: int, start: nat, stop: nat): int
    requires start <= stop <= |replies|
    decreases stop
  {
    if start == stop then delay else NextDelay(replies[stop - 1], DelayAt(replies, delay, start, stop - 1))
  }

  /** Seeing the first reply and then the rest gives the same delay as seeing them all. */
  lemma {:induction false} DelayAtFirstStep(replies: seq<Reply>, delay: int, start: nat, stop: nat)
    requires start < stop <= |replies|
    ensures DelayAt(replies, delay, start, stop) == DelayAt(replies, NextDelay(replies[start], delay), start + 1, stop)
    decreases stop
  {
    if start + 1 < stop {
      DelayAtFirstStep(replies, delay, start, stop - 1);
    }
  }

  /** Replies that are not 5xx answers leave the backoff delay as it was. */
  lemma {:induction false} DelayUnchanged(replies: seq<Reply>, delay: int, start: nat, stop: nat)
    requires start <= stop <= |replies|
    requires forall k :: start <= k < stop ==> !(replies[k].Answered? && replies[k].response.status >= 500)
    ensures DelayAt(replies, delay, start, stop) == delay
    decreases stop
  {
    if start < stop {
      DelayUnchanged(replies, delay, start, stop - 1);
    }
  }

  /** Without a Retry-After on any 5xx the delay never leaves [0, MaxDelay]. */
  lemma {:induction false} DelayCapped(replies: seq<Reply>, delay: int, start: nat, stop: nat)
    requires start <= stop <= |replies|
    requires 0 <= delay <= MaxDelay
    requires forall k :: start <= k < stop && replies[k].Answered? ==> !replies[k].response.retryAfter.Seconds?
    ensures 0 <= DelayAt(replies, delay, start, stop) <= MaxDelay
    decreases stop
  {
    if start < stop {
      DelayCapped(replies, delay, start, stop - 1);
    }
  }

  /**
   * The jitters drawn from retry `retry` on fit the delay current at each
   * request, starting from `delay`.
   */
  predicate JitterFitsDelays(replies: seq<Reply>, jitter: seq<real>, retry: nat, delay: int)
    requires |replies| > MaxRetries && |jitter| > MaxRetries
  {
    forall k :: retry <= k <= MaxRetries ==> JitterFits(jitter[k], DelayAt(replies, delay, retry, k + 1))
  }

  /** Fitting jitters fit the first request, and the rest fit the delay it leaves. */
  lemma JitterFitsDelaysStep(replies: seq<Reply>, jitter: seq<real>, retry: nat, delay: int)
    requires |replies| > MaxRetries && |jitter| > MaxRetries && retry <= MaxRetries
    requires JitterFitsDelays(replies, jitter, retry, delay)
    ensures JitterFits(jitter[retry], NextDelay(replies[retry], delay))
    ensures JitterFitsDelays(replies, jitter, retry + 1, NextDelay(replies[retry], delay))
  {
    assert DelayAt(replies, delay, retry, retry + 1) == NextDelay(replies[retry], delay);
    forall k | retry + 1 <= k <= MaxRetries
      ensures JitterFits(jitter[k], DelayAt(replies, NextDelay(replies[retry], delay), retry + 1, k + 1))
    {
      DelayAtFirstStep(replies, delay, retry, k + 1);
    }
  }

  /**
   * What each recorded sleep is, given the reply of the request it followed
   * and the backoff delay after that reply: the Retry-After seconds exactly
   * for a 429, between the delay and 1.1 times the delay for a 5xx, and one
   * second after a near-limit answer.
   */
  predicate SleepFits(reply: Reply, delay: int, s: real)
  {
    reply.Answered? &&
    (reply.response.status == 429 ==> s == RateLimitWait(reply) as real) &&
    (reply.response.status >= 500 ==> 0.0 <= delay as real <= s <= 1.1 * delay as real) &&
    (!Retryable(reply.response.status) ==> reply.response.nearLimit && s == 1.0)
  }

  /** The sleep one pass takes fits its reply and the delay after it. */
  lemma AttemptSleepFits(reply: Reply, jitter: real, retry: nat, delay: int)
    requires JitterFits(jitter, NextDelay(reply, delay))
    ensures var s := Attempt(reply, jitter, retry, delay);
      (s.Again? ==> SleepFits(reply, NextDelay(reply, delay), s.sleepTime)) &&
      (s.Finished? && |s.sleeps| > 0 ==> SleepFits(reply, NextDelay(reply, delay), s.sleeps[0]))
  {
    AttemptFacts(reply, jitter, retry, delay);
  }

  /** Sleep number `i` of a run fits the reply it followed and the delay current at that point. */
  lemma {:induction false} SleepFitsAt(replies: seq<Reply>, jitter: seq<real>, retry: nat, delay: int, i: nat)
    requires |replies| > MaxRetries && |jitter| > MaxRetries && retry <= MaxRetries + 1
    requires i < |Run(replies, jitter, retry, delay).sleeps|
    requires JitterFits(jitter[retry + i], DelayAt(replies, delay, retry, retry + i + 1))
    ensures SleepFits(replies[retry + i], DelayAt(replies, delay, retry, retry + i + 1),
                      Run(replies, jitter, retry, delay).sleeps[i])
    decreases i
  {
    match Attempt(replies[retry], jitter[retry], retry, delay)
    case Finished(outcome, sleeps) =>
      RunFinishes(replies, jitter, retry, delay, outcome, sleeps);
      assert DelayAt(replies, delay, retry, retry + 1) == NextDelay(replies[retry], delay);
      AttemptSleepFits(replies[retry], jitter[retry], retry, delay);
    case Again(sleepTime, next) =>
      RunContinues(replies, jitter, retry, delay, sleepTime, next);
      if i == 0 {
        assert DelayAt(replies, delay, retry, retry + 1) == NextDelay(replies[retry], delay);
        AttemptSleepFits(replies[retry], jitter[retry], retry, delay);
      } else {
        AttemptFacts(replies[retry], jitter[retry], retry, delay);
        DelayAtFirstStep(replies, delay, retry, retry + i + 1);
        SleepFitsAt(replies, jitter, retry + 1, next, i - 1);
      }
  }

  /** Every sleep of a run fits the reply it followed and the delay current at that point. */
  lemma SleepsFollowReplies(replies: seq<Reply>, jitter: seq<real>, retry: nat, delay: int)
    requires |replies| > MaxRetries && |jitter| > MaxRetries && retry <= MaxRetries + 1
    requires JitterFitsDelays(replies, jitter, retry, delay)
    ensures var t := Run(replies, jitter, retry, delay);
      forall i :: 0 <= i < |t.sleeps| ==>
        SleepFits(replies[retry + i], DelayAt(replies, delay, retry, retry + i + 1), t.sleeps[i])
  {
    var t := Run(replies, jitter, retry, delay);
    forall i | 0 <= i < |t.sleeps|
      ensures SleepFits(replies[retry + i], DelayAt(replies, delay, retry, retry + i + 1), t.sleeps[i])
    {
      assert JitterFits(jitter[retry + i], DelayAt(replies, delay, retry, retry + i + 1));
      SleepFitsAt(replies, jitter, retry, delay, i);
    }
  }

  // ---------------------------------------------------------------------------
  // Consequences for whole runs
  // ---------------------------------------------------------------------------

  /** An answer that is not retried (a 2xx, a 404, any other 4xx) is returned by the first request. */
  lemma ReturnsAtOnce(replies: seq<Reply>, jitter: seq<real>)
    requires |replies| > MaxRetries && |jitter| > MaxRetries
    requires replies[0].Answered? && !Retryable(replies[0].response.status)
    ensures Run(replies, jitter, 0, InitialDelay) ==
              Trace(Returned(replies[0].response), 1, if replies[0].response.nearLimit then [1.0] else [])
  {
  }

  /** A 5xx without a usable-as-is header: the kind of answer backoff doubles on. */
  predicate ServerErrorWithoutRetryAfter(reply: Reply)
  {
    reply.Answered? && reply.response.status >= 500 && reply.response.retryAfter.Absent?
  }

  /** From a non-negative delay, 5xx answers without Retry-After exhaust the retries. */
  lemma {:induction false} ServerErrorsExhaustRetries(replies: seq<Reply>, jitter: seq<real>, retry: nat, delay: int)
    requires |replies| > MaxRetries && |jitter| > MaxRetries && retry <= MaxRetries + 1
    requires JitterFitsDelays(replies, jitter, retry, delay) && delay >= 0
    requires forall k :: retry <= k <= MaxRetries ==> ServerErrorWithoutRetryAfter(replies[k])
    ensures Run(replies, jitter, retry, delay).outcome == Raised(MaxRetriesExceeded)
    decreases MaxRetries + 1 - retry
  {
    if retry <= MaxRetries {
      var next := NextDelay(replies[retry], delay);
      JitterFitsDelaysStep(replies, jitter, retry, delay);
      ServerErrorsExhaustRetries(replies, jitter, retry + 1, next);
    }
  }

  /** Six 5xx answers without Retry-After take the delay from 1 to 2, 4, 8, 16, 32 and 32. */
  lemma DoublingDelays(replies: seq<Reply>)
    requires |replies| > MaxRetries
    requires forall k :: 0 <= k <= MaxRetries ==> ServerErrorWithoutRetryAfter(replies[k])
    ensures DelayAt(replies, 1, 0, 1) == 2 && DelayAt(replies, 1, 0, 2) == 4 && DelayAt(replies, 1, 0, 3) == 8
    ensures DelayAt(replies, 1, 0, 4) == 16 && DelayAt(replies, 1, 0, 5) == 32 && DelayAt(replies, 1, 0, 6) == 32
  {
    assert DelayAt(replies, 1, 0, 1) == 2;
    assert DelayAt(replies, 1, 0, 2) == 4;
    assert DelayAt(replies, 1, 0, 3) == 8;
    assert DelayAt(replies, 1, 0, 4) == 16;
    assert DelayAt(replies, 1, 0, 5) == 32;
  }

  /** After a 5xx without Retry-After, sleep number `i` lies between the delay current then and a tenth more. */
  lemma BackoffSleep(replies: seq<Reply>, jitter: seq<real>, i: nat, delay: int)
    requires |replies| > MaxRetries && |jitter| > MaxRetries
    requires i < |Run(replies, jitter, 0, InitialDelay).sleeps|
    requires ServerErrorWithoutRetryAfter(replies[i])
    requires JitterFitsDelays(replies, jitter, 0, InitialDelay)
    requires DelayAt(replies, InitialDelay, 0, i + 1) == delay
    ensures delay as real <= Run(replies, jitter, 0, InitialDelay).sleeps[i] <= 1.1 * delay as real
  {
    SleepFitsAt(replies, jitter, 0, InitialDelay, i);
  }

  /**
   * Six 5xx answers without Retry-After: all six requests are made, each is
   * followed by a sleep of 2, 4, 8, 16, 32 and 32 seconds plus up to a tenth
   * more, and the call ends with "max retries exceeded".
   */
  lemma BackoffSchedule(replies: seq<Reply>, jitter: seq<real>)
    requires |replies| > MaxRetries && |jitter| > MaxRetries
    requires forall k :: 0 <= k <= MaxRetries ==> ServerErrorWithoutRetryAfter(replies[k])
    requires JitterFitsDelays(replies, jitter, 0, InitialDelay)
    ensures var t := Run(replies, jitter, 0, InitialDelay);
      t.outcome == Raised(MaxRetriesExceeded) && t.attempts == MaxRetries + 1 && |t.sleeps| == 6 &&
      2.0 <= t.sleeps[0] <= 2.2 && 4.0 <= t.sleeps[1] <= 4.4 && 8.0 <= t.sleeps[2] <= 8.8 &&
      16.0 <= t.sleeps[3] <= 17.6 && 32.0 <= t.sleeps[4] <= 35.2 && 32.0 <= t.sleeps[5] <= 35.2
  {
    var t := Run(replies, jitter, 0, InitialDelay);
    ServerErrorsExhaustRetries(replies, jitter, 0, InitialDelay);
    LastReplyDecides(replies, jitter, 0, InitialDelay);
    assert |t.sleeps| == 6;
    DoublingDelays(replies);
    assert 2.0 <= t.sleeps[0] <= 2.2 by { BackoffSleep(replies, jitter, 0, 2); }
    assert 4.0 <= t.sleeps[1] <= 4.4 by { BackoffSleep(replies, jitter, 1, 4); }
    assert 8.0 <= t.sleeps[2] <= 8.8 by { BackoffSleep(replies, jitter, 2, 8); }
    assert 16.0 <= t.sleeps[3] <= 17.6 by { BackoffSleep(replies, jitter, 3, 16); }
    assert 32.0 <= t.sleeps[4] <= 35.2 by { BackoffSleep(replies, jitter, 4, 32); }
    assert 32.0 <= t.sleeps[5] <= 35.2 by { BackoffSleep(replies, jitter, 5, 32); }
  }

  /** A 429 whose Retry-After (or its default of 1) is a duration sleep() accepts. */
  predicate RetryableRateLimit(reply: Reply)
  {
    reply.Answered? && reply.response.status == 429 &&
    HandleRateLimit(reply.response).RateLimited? && RateLimitWait(reply) >= 0
  }

  /**
   * From retry `retry` on, 429 answers only: each but the last is followed by
   * a sleep of exactly its Retry-After seconds, with no cap and no jitter, and
   * the last one's rate-limit error is raised.
   */
  lemma {:induction false} RateLimitsExhaustRetries(replies: seq<Reply>, jitter: seq<real>, retry: nat, delay: int)
    requires |replies| > MaxRetries && |jitter| > MaxRetries && retry <= MaxRetries
    requires forall k :: retry <= k <= MaxRetries ==> RetryableRateLimit(replies[k])
    ensures var t := Run(replies, jitter, retry, delay);
      t.outcome == Raised(RateLimited(RateLimitWait(replies[MaxRetries]))) &&
      t.attempts == MaxRetries + 1 - retry &&
      |t.sleeps| == MaxRetries - retry &&
      forall i :: 0 <= i < |t.sleeps| ==> t.sleeps[i] == RateLimitWait(replies[retry + i]) as real
    decreases MaxRetries - retry
  {
    if retry < MaxRetries {
      RateLimitsExhaustRetries(replies, jitter, retry + 1, delay);
      var t := Run(replies, jitter, retry, delay);
      var rest := Run(replies, jitter, retry + 1, delay);
      assert t == Resume(1, [RateLimitWait(replies[retry]) as real], rest);
      forall i | 1 <= i < |t.sleeps|
        ensures t.sleeps[i] == RateLimitWait(replies[retry + i]) as real
      {
        assert t.sleeps[i] == rest.sleeps[i - 1];
      }
    }
  }

  /** A Retry-After of 120 seconds on a 429 is slept in full before the next request. */
  lemma RateLimitNotCapped(replies: seq<Reply>, jitter: seq<real>)
    requires |replies| > MaxRetries && |jitter| > MaxRetries
    requires replies[0] == Answered(Response(429, Seconds(120), false, None))
    requires replies[1] == Answered(Response(200, Absent, false, None))
    ensures Run(replies, jitter, 0, InitialDelay) ==
              Trace(Returned(Response(200, Absent, false, None)), 2, [120.0])
  {
    assert Run(replies, jitter, 1, InitialDelay) == Trace(Returned(Response(200, Absent, false, None)), 1, []);
  }

  /**
   * A 5xx's Retry-After is not capped either: a 503 asking for 120 s is
   * followed by a sleep of 120 s plus at most a tenth more.
   */
  lemma ServerRetryAfterNotCapped(replies: seq<Reply>, jitter: seq<real>)
    requires |replies| > MaxRetries && |jitter| > MaxRetries
    requires replies[0] == Answered(Response(503, Seconds(120), false, None))
    requires replies[1] == Answered(Response(200, Absent, false, None))
    requires JitterFits(jitter[0], 120)
    ensures var t := Run(replies, jitter, 0, InitialDelay);
      t.outcome == Returned(Response(200, Absent, false, None)) && t.attempts == 2 &&
      |t.sleeps| == 1 && 120.0 <= t.sleeps[0] <= 132.0
  {
    assert Run(replies, jitter, 1, 120) == Trace(Returned(Response(200, Absent, false, None)), 1, []);
  }

  // ---------------------------------------------------------------------------
  // Classifying the answer
  // ---------------------------------------------------------------------------

  /** An object whose JSON carries a non-empty `objectType.id`. */
  predicate HasObjectType(json: ObjectJson)
  {
    json.objectTypeId.Some? && json.objectTypeId.value != ""
  }

  /** Whether get_object records a timestamp: a non-404 answer whose body is JSON. */
  predicate Stamped(outcome: Outcome)
  {
    outcome.Returned? && outcome.response.status != 404 && outcome.response.body.Some?
  }

  /**
   * get_object's result for an outcome of the request: the JSON of a non-404
   * answer that names its object type, and nothing for a 404, a body that is
   * not JSON, a missing or empty type id, or any exception.
   */
  function ObjectResult(outcome: Outcome): (r: Option<ObjectJson>)
    ensures r.Some? <==>
              outcome.Returned? && outcome.response.status != 404 &&
              outcome.response.body.Some? && HasObjectType(outcome.response.body.value)
    ensures r.Some? ==> r == outcome.response.body
  {
    if outcome.Raised? || outcome.response.status == 404 then None
    else match outcome.response.body
      case None => None
      case Some(json) => if HasObjectType(json) then Some(json) else None
  }

  /** The timestamp is written before the type check: every result is stamped, and so is a typeless one. */
  lemma StampPrecedesTypeCheck(outcome: Outcome)
    ensures ObjectResult(outcome).Some? ==> Stamped(outcome)
    ensures Stamped(outcome) && ObjectResult(outcome).None? <==>
              Stamped(outcome) && !HasObjectType(outcome.response.body.value)
  {
  }

  /**
   * update_object's result: the JSON of a 200 or 201 answer; nothing for any
   * other status, a body that is not JSON, or any exception.
   */
  function UpdateResult(outcome: Outcome): (r: Option<ObjectJson>)
    ensures r.Some? <==>
              outcome.Returned? && (outcome.response.status == 200 || outcome.response.status == 201) &&
              outcome.response.body.Some?
    ensures r.Some? ==> r == outcome.response.body
  {
    if outcome.Raised? || (outcome.response.status != 200 && outcome.response.status != 201) then None
    else outcome.response.body
  }

  /** One attribute of an update, as the registry's API names its parts. */
  datatype ObjectAttribute = ObjectAttribute(objectTypeAttributeId: string, values: seq<string>)

  /** The body of an update request. */
  datatype UpdatePayload = UpdatePayload(
    attributes: seq<ObjectAttribute>, objectTypeId: string, avatarUuid: string, hasAvatar: bool)

  /**
   * Whether an object's timestamp is older than the timeout at time `now`:
   * never for an object without one, not up to 300 s after it, and always
   * from 301 s after it on.
   */
  function Expired(timestamps: map<string, int>, objectId: string, now: int): (expired: bool)
    ensures objectId !in timestamps ==> !expired
    ensures objectId in timestamps && now <= timestamps[objectId] + CacheTimeout ==> !expired
    ensures objectId in timestamps && now >= timestamps[objectId] + CacheTimeout + 1 ==> expired
  {
    objectId in timestamps && now - timestamps[objectId] > CacheTimeout
  }

  /** Once expired, an object's timestamp stays expired as the clock moves on. */
  lemma ExpiredStaysExpired(timestamps: map<string, int>, objectId: string, now: int, later: int)
    requires now <= later
    requires Expired(timestamps, objectId, now)
    ensures Expired(timestamps, objectId, later)
  {
  }

  // ---------------------------------------------------------------------------
  // The client
  // ---------------------------------------------------------------------------

  /**
   * The API client.  `timestamps` holds when each object was last fetched;
   * `cachedObjects` stands for the memoised fetches of the shared object
   * cache, which fetching an object may clear but never reads.
   */
  class Client {
    var timestamps: map<string, int>
    var cachedObjects: map<string, Option<ObjectJson>>

    /** A client with no timestamps and an empty cache. */
    constructor ()
      ensures timestamps == map[] && cachedObjects == map[]
    {
      timestamps := map[];
      cachedObjects := map[];
    }

    /**
     * One pass of the retry loop of _make_request, up to the sleep: a
     * transport exception, a 429 at the last retry or with an unusable
     * Retry-After, a 5xx with an unparsable Retry-After, a negative sleep and
     * an answer that is not retried end the call; a 429 before the last retry
     * and any other 5xx give the sleep and the delay for the next pass.
     * Its result is Attempt's, so AttemptFacts gives its properties.
     */
    method Pass(reply: Reply, jitterAmount: real, retry: nat, delay: int) returns (step: Step)
      ensures step == Attempt(reply, jitterAmount, retry, delay)
    {
      if reply.TransportFailure? {
        return Finished(Raised(TransportError), []);
      }
      var response := reply.response;
      if response.status == 429 {
        var failure := HandleRateLimit(response);
        if !failure.RateLimited? || retry >= MaxRetries {
          return Finished(Raised(failure), []);
        }
        if failure.retryAfter < 0 {
          return Finished(Raised(NegativeSleep), []);
        }
        return Again(failure.retryAfter as real, delay);
      } else if response.status >= 500 {
        var next := delay;
        match response.retryAfter {
          case Seconds(n) =>
            next := n;
          case Absent =>
            next := if delay * 2 < MaxDelay then delay * 2 else MaxDelay;
          case NotAnInteger =>
            return Finished(Raised(InvalidRetryAfter), []);
        }
        var sleepTime := next as real + jitterAmount;
        if sleepTime < 0.0 {
          return Finished(Raised(NegativeSleep), []);
        }
        return Again(sleepTime, next);
      } else {
        return Finished(Returned(response), if response.nearLimit then [1.0] else []);
      }
    }

    /**
     * _make_request: issues requests until one is answered with a status
     * that is not retried, an exception propagates, or the retries run out;
     * a call that sleeps after its answer records that sleep as well.
     */
    method MakeRequest(replies: seq<Reply>, jitter: seq<real>) returns (t: Trace)
      requires |replies| > MaxRetries && |jitter| > MaxRetries
      ensures t == Run(replies, jitter, 0, InitialDelay)
    {
      var retry := 0;
      var delay := InitialDelay;
      var sleeps: seq<real> := [];
      ghost var whole := Run(replies, jitter, 0, InitialDelay);
      ResumeFromStart(whole);
      while retry <= MaxRetries
        invariant 0 <= retry <= MaxRetries + 1
        invariant whole == Resume(retry, sleeps, Run(replies, jitter, retry, delay))
        decreases MaxRetries + 1 - retry
      {
        var step := Pass(replies[retry], jitter[retry], retry, delay);
        PassStep(replies, jitter, retry, delay, sleeps, whole);
        match step {
          case Finished(outcome, last) =>
            return Trace(outcome, retry + 1, sleeps + last);
          case Again(sleepTime, next) =>
            sleeps := sleeps + [sleepTime];
            delay := next;
            retry := retry + 1;
        }
      }
      RunExhausted(replies, jitter, delay, sleeps, whole);
      return Trace(Raised(MaxRetriesExceeded), retry, sleeps);
    }

    /**
     * get_object: clears the shared cache when this object's timestamp is
     * stale at `now`, requests the object, stamps it with the later clock
     * reading `answeredAt` when the answer is a non-404 JSON body, and
     * returns the object when it names its type.
     */
    method GetObject(objectId: string, now: int, answeredAt: int, replies: seq<Reply>, jitter: seq<real>)
      returns (result: Option<ObjectJson>)
      requires |replies| > MaxRetries && |jitter| > MaxRetries
      modifies this
      ensures var outcome := Run(replies, jitter, 0, InitialDelay).outcome;
        result == ObjectResult(outcome) &&
        timestamps == (if Stamped(outcome) then old(timestamps)[objectId := answeredAt] else old(timestamps))
      ensures cachedObjects == if Expired(old(timestamps), objectId, now) then map[] else old(cachedObjects)
    {
      if objectId in timestamps && now - timestamps[objectId] > CacheTimeout {
        cachedObjects := map[];
      }
      var t := MakeRequest(replies, jitter);
      if t.outcome.Raised? {
        return None;
      }
      var response := t.outcome.response;
      if response.status == 404 {
        return None;
      }
      if response.body.None? {
        return None;
      }
      var json := response.body.value;
      timestamps := timestamps[objectId := answeredAt];
      if !HasObjectType(json) {
        return None;
      }
      return Some(json);
    }

    /**
     * update_object: sends the attributes with an empty avatar and returns the
     * answer's JSON when the status is 200 or 201.
     */
    method UpdateObject(objectId: string, objectTypeId: string, attributes: seq<ObjectAttribute>,
                        replies: seq<Reply>, jitter: seq<real>)
      returns (payload: UpdatePayload, result: Option<ObjectJson>)
      requires |replies| > MaxRetries && |jitter| > MaxRetries
      ensures payload.attributes == attributes && payload.objectTypeId == objectTypeId
      ensures payload.avatarUuid == "" && !payload.hasAvatar
      ensures result == UpdateResult(Run(replies, jitter, 0, InitialDelay).outcome)
    {
      payload := UpdatePayload(attributes, objectTypeId, "", false);
      var t := MakeRequest(replies, jitter);
      if t.outcome.Raised? {
        return payload, None;
      }
      var response := t.outcome.response;
      if response.status != 200 && response.status != 201 {
        return payload, None;
      }
      return payload, response.body;
    }
  }
}
