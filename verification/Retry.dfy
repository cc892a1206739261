/** The retry loop (retry.py), and one model completion as two of them nested: protocol failures are
    retried by the outer loop (providers/llm/openai_chat.py, lines 41-113), retryable statuses and
    transport failures by the inner one (providers/http.py, lines 107-231 and 268-281). Delays are reals. */
module Retry {
  datatype RetryPolicy = RetryPolicy(maxAttempts: int, baseDelay: real, maxDelay: real)

  /** How an attempt, or a whole run, ends. `NoAttempt` is the source's "retry loop exhausted". */
  datatype Outcome<+T, +E> = Value(value: T) | Error(error: E) | Cancelled | NoAttempt

  /** A run of the loop: its outcome, the attempts it made and the delays it slept for, in order. */
  datatype Run<+T, +E> = Run(outcome: Outcome<T, E>, attempts: nat, delays: seq<real>)

  function PowerOfTwo(n: nat): nat
  {
    if n == 0 then 1 else 2 * PowerOfTwo(n - 1)
  }

  /** The delay after attempt `k`. */
  function Delay(policy: RetryPolicy, k: nat): real
    requires k >= 1
  {
    Least(policy.baseDelay * (PowerOfTwo(k - 1) as real), policy.maxDelay)
  }

  /** What attempt `k` ends with, and whether the sleep after it completes, are given by `operation` and
      `sleeps`; a sleep that does not complete was cancelled. */
  method RetryAsync<T, E>(policy: RetryPolicy, operation: nat -> Outcome<T, E>, retryable: E -> bool,
                          sleeps: nat -> bool)
      returns (run: Run<T, E>)
    ensures run == RetryRun(policy, operation, retryable, sleeps, 1)
  {
    var delays: seq<real> := [];
    var attempt := 1;
    while attempt <= policy.maxAttempts
      invariant 1 <= attempt && (attempt <= policy.maxAttempts + 1 || attempt == 1)
      invariant RetryRun(policy, operation, retryable, sleeps, 1)
             == After(attempt - 1, delays, RetryRun(policy, operation, retryable, sleeps, attempt))
      decreases policy.maxAttempts - attempt
    {
      var outcome := operation(attempt);
      if !outcome.Error? || attempt == policy.maxAttempts || !retryable(outcome.error) {
        return Run(outcome, attempt, delays);
      }
      var delay := Delay(policy, attempt);
      AfterNext(attempt - 1, delays, delay, RetryRun(policy, operation, retryable, sleeps, attempt + 1));
      delays := delays + [delay];
      if !sleeps(attempt) {
        return Run(Cancelled, attempt, delays);
      }
      attempt := attempt + 1;
    }
    return Run(NoAttempt, attempt - 1, delays);
  }

  /** `rest` after `attempts` attempts and `delays`. */
  function After<T, E>(attempts: nat, delays: seq<real>, rest: Run<T, E>): Run<T, E>
  {
    Run(rest.outcome, attempts + rest.attempts, delays + rest.delays)
  }

  lemma AfterNext<T, E>(attempts: nat, delays: seq<real>, delay: real, rest: Run<T, E>)
    ensures After(attempts, delays, After(1, [delay], rest)) == After(attempts + 1, delays + [delay], rest)
  {
  }

  /** The run from attempt `k` on. */
  function RetryRun<T, E>(policy: RetryPolicy, operation: nat -> Outcome<T, E>, retryable: E -> bool,
                          sleeps: nat -> bool, k: nat): Run<T, E>
    requires k >= 1
    decreases policy.maxAttempts - k
  {
    if k > policy.maxAttempts then Run(NoAttempt, 0, [])
    else
      var outcome := operation(k);
      if !outcome.Error? || k == policy.maxAttempts || !retryable(outcome.error) then Run(outcome, 1, [])
      else if !sleeps(k) then Run(Cancelled, 1, [Delay(policy, k)])
      else After(1, [Delay(policy, k)], RetryRun(policy, operation, retryable, sleeps, k + 1))
  }

  // ----- what a run of the loop is -----

  /** Attempt `k` failed, and the loop went on to sleep. */
  predicate GoesOn<T, E>(policy: RetryPolicy, operation: nat -> Outcome<T, E>, retryable: E -> bool, k: nat)
  {
    k < policy.maxAttempts && operation(k).Error? && retryable(operation(k).error)
  }

  /** Every attempt but the last failed in a retryable way and was slept after; the run ends with what
      its last attempt ended with, unless the sleep after it was cancelled. */
  ghost predicate Meets<T(!new), E(!new)>(policy: RetryPolicy, operation: nat -> Outcome<T, E>, retryable: E -> bool,
                                          sleeps: nat -> bool, k: nat, run: Run<T, E>)
    requires k >= 1
  {
    && 1 <= run.attempts && k + run.attempts - 1 <= policy.maxAttempts
    && (forall j :: k <= j < k + run.attempts - 1 ==> GoesOn(policy, operation, retryable, j) && sleeps(j))
    && (forall i :: 0 <= i < |run.delays| ==> run.delays[i] == Delay(policy, k + i))
    && var last := k + run.attempts - 1;
       if GoesOn(policy, operation, retryable, last) then
         !sleeps(last) && run.outcome == Cancelled && |run.delays| == run.attempts
       else run.outcome == operation(last) && |run.delays| == run.attempts - 1
  }

  lemma {:induction false} RunMeets<T(!new), E(!new)>(policy: RetryPolicy, operation: nat -> Outcome<T, E>,
                                                      retryable: E -> bool, sleeps: nat -> bool, k: nat)
    requires 1 <= k <= policy.maxAttempts
    ensures Meets(policy, operation, retryable, sleeps, k, RetryRun(policy, operation, retryable, sleeps, k))
    decreases policy.maxAttempts - k
  {
    if GoesOn(policy, operation, retryable, k) && sleeps(k) {
      RunMeets(policy, operation, retryable, sleeps, k + 1);
    }
  }

  /** With at least one attempt allowed, the loop makes between one and that many, sleeping fewer times. */
  lemma RunBounded<T(!new), E(!new)>(policy: RetryPolicy, operation: nat -> Outcome<T, E>, retryable: E -> bool,
                                     sleeps: nat -> bool)
    requires 1 <= policy.maxAttempts
    ensures var run := RetryRun(policy, operation, retryable, sleeps, 1);
      && 1 <= run.attempts <= policy.maxAttempts && |run.delays| <= policy.maxAttempts - 1
      && Total(run.delays) <= Scaled(|run.delays|, policy.maxDelay)
  {
    var run := RetryRun(policy, operation, retryable, sleeps, 1);
    RunMeets(policy, operation, retryable, sleeps, 1);
    TotalBounded(policy, run.delays);
  }

  /** Nothing is attempted exactly when no attempt is allowed. */
  lemma NoAttemptIff<T(!new), E(!new)>(policy: RetryPolicy, operation: nat -> Outcome<T, E>, retryable: E -> bool,
                                       sleeps: nat -> bool)
    ensures var run := RetryRun(policy, operation, retryable, sleeps, 1);
      && (run.attempts == 0 <==> policy.maxAttempts < 1)
      && (run.attempts == 0 ==> run.outcome == NoAttempt && run.delays == [])
  {
    if 1 <= policy.maxAttempts { RunMeets(policy, operation, retryable, sleeps, 1); }
  }

  lemma PowerOfTwoGrows(n: nat)
    ensures 1 <= PowerOfTwo(n) <= PowerOfTwo(n + 1)
  {
    if n > 0 { PowerOfTwoGrows(n - 1); }
  }

  /** The delays of a run never decrease and never exceed the maximum. */
  lemma DelaysGrow(policy: RetryPolicy, k: nat)
    requires k >= 1 && 0.0 <= policy.baseDelay
    ensures Delay(policy, k) <= Delay(policy, k + 1) <= policy.maxDelay
  {
    PowerOfTwoGrows(k - 1);
    assert policy.baseDelay * (PowerOfTwo(k - 1) as real) <= policy.baseDelay * (PowerOfTwo(k) as real);
  }

  /** The first delay is the base, and each is twice the one before, none beyond the maximum. */
  lemma DelayDoubles(policy: RetryPolicy, k: nat)
    requires k >= 1
    ensures Delay(policy, 1) == Least(policy.baseDelay, policy.maxDelay)
    ensures 0.0 <= policy.maxDelay ==> Delay(policy, k + 1) == Least(2.0 * Delay(policy, k), policy.maxDelay)
  {
    assert PowerOfTwo(k) == 2 * PowerOfTwo(k - 1);
    assert policy.baseDelay * (PowerOfTwo(k) as real) == 2.0 * (policy.baseDelay * (PowerOfTwo(k - 1) as real));
  }

  function Least(x: real, y: real): real
  {
    if x <= y then x else y
  }

  function Total(delays: seq<real>): real
  {
    if delays == [] then 0.0 else Total(delays[..|delays| - 1]) + delays[|delays| - 1]
  }

  /** `n` times `m`, added up. */
  ghost function Scaled(n: nat, m: real): real
  {
    if n == 0 then 0.0 else Scaled(n - 1, m) + m
  }

  lemma {:induction false} ScaledIsProduct(n: nat, m: real)
    ensures Scaled(n, m) == n as real * m
  {
    if n == 0 {
    } else {
      ScaledIsProduct(n - 1, m);
    }
  }

  lemma {:induction false} ScaledSum(a: nat, b: nat, m: real)
    ensures Scaled(a + b, m) == Scaled(a, m) + Scaled(b, m)
  {
    if b == 0 {
    } else {
      ScaledSum(a, b - 1, m);
    }
  }

  lemma {:induction false} ScaledGrows(a: nat, b: nat, m: real)
    requires a <= b && 0.0 <= m
    ensures Scaled(a, m) <= Scaled(b, m)
  {
    if a < b { ScaledGrows(a, b - 1, m); }
  }

  lemma {:induction false} TotalBounded(policy: RetryPolicy, delays: seq<real>)
    requires forall i :: 0 <= i < |delays| ==> delays[i] <= policy.maxDelay
    ensures Total(delays) <= Scaled(|delays|, policy.maxDelay)
  {
    if delays == [] {
    } else {
      TotalBounded(policy, delays[..|delays| - 1]);
    }
  }

  // ----- the inner loop -----

  /** A response body: not JSON, JSON of another shape than a completion, or a completion's content,
      which may in turn be a JSON object. */
  datatype Body = NotJson | BadShape | Content(text: string, isObject: bool)

  datatype Response = Response(status: int, body: Body)

  /** What one HTTP request ends with; `Transport` covers timeouts. */
  datatype HttpError = RetryableStatus(status: int) | Transport | OtherError

  datatype Reply = Replied(response: Response) | TransportFails | RaisesOther | IsCancelled

  datatype Failure = StatusFailure(status: int) | TransportFailure | ProtocolFailure | UnexpectedError

  predicate IsRetryableStatus(status: int)
  {
    status == 408 || status == 429 || status >= 500
  }

  function Attempted(reply: Reply): Outcome<Response, HttpError>
  {
    match reply
    case Replied(response) =>
      if IsRetryableStatus(response.status) then Error(RetryableStatus(response.status)) else Value(response)
    case TransportFails => Error(Transport)
    case RaisesOther => Error(OtherError)
    case IsCancelled => Cancelled
  }

  predicate IsRetryable(error: HttpError)
  {
    error.RetryableStatus? || error.Transport?
  }

  /** What the network does to one `_request_response`: the reply to each request, and the sleeps. */
  datatype Network = Network(replies: nat -> Reply, sleeps: nat -> bool)

  function Requesting(network: Network): nat -> Outcome<Response, HttpError>
  {
    (k: nat) => Attempted(network.replies(k))
  }

  function RequestRun(policy: RetryPolicy, network: Network): Run<Response, HttpError>
  {
    RetryRun(policy, Requesting(network), IsRetryable, network.sleeps, 1)
  }

  /** What `request_json` makes of a run: only a body that is not JSON is a protocol failure. */
  function JsonOutcome(outcome: Outcome<Response, HttpError>): Outcome<Body, Failure>
  {
    match outcome
    case Value(response) =>
      if response.status < 200 || response.status >= 300 then Error(StatusFailure(response.status))
      else if response.body.NotJson? then Error(ProtocolFailure)
      else Value(response.body)
    case Error(RetryableStatus(status)) => Error(StatusFailure(status))
    case Error(Transport) => Error(TransportFailure)
    case Error(OtherError) => Error(UnexpectedError)
    case Cancelled => Cancelled
    case NoAttempt => Error(UnexpectedError)
  }

  /** An HTTP request succeeds exactly when its last reply is JSON with a 2xx status; every earlier reply
      was a transport failure or had status 408, 429 or at least 500, and the last one too if the sleep
      after it was cancelled. */
  lemma RequestMeaning(policy: RetryPolicy, network: Network)
    requires 1 <= policy.maxAttempts
    ensures var run := RequestRun(policy, network);
      && 1 <= run.attempts <= policy.maxAttempts
      && (forall k :: 1 <= k < run.attempts ==> Retryable(network.replies(k)))
      && (JsonOutcome(run.outcome).Value? <==>
            var last := network.replies(run.attempts);
            last.Replied? && 200 <= last.response.status < 300 && !last.response.body.NotJson?)
      && (run.outcome.Cancelled? ==>
          network.replies(run.attempts).IsCancelled? || Retryable(network.replies(run.attempts)))
  {
    RunMeets(policy, Requesting(network), IsRetryable, network.sleeps, 1);
    forall k: nat ensures Requesting(network)(k) == Attempted(network.replies(k)) {}
    forall k | 1 <= k < RequestRun(policy, network).attempts ensures Retryable(network.replies(k)) {
      assert GoesOn(policy, Requesting(network), IsRetryable, k);
    }
  }

  predicate Retryable(reply: Reply)
  {
    reply.TransportFails? || (reply.Replied? && (reply.response.status in {408, 429} || reply.response.status >= 500))
  }

  // ----- what a request ends with, in terms of the network's replies -----

  predicate Succeeded(reply: Reply)
  {
    reply.Replied? && 200 <= reply.response.status < 300
  }

  /** The run makes `n` requests: every reply but the last was retryable and slept after, and the last was
      not retryable, or nothing was left to retry, or the sleep after it was cancelled. */
  ghost predicate Requested(policy: RetryPolicy, network: Network, n: nat)
  {
    && 1 <= n <= policy.maxAttempts
    && (forall k :: 1 <= k < n ==> Retryable(network.replies(k)) && network.sleeps(k))
    && (n == policy.maxAttempts || !Retryable(network.replies(n)) || !network.sleeps(n))
  }

  /** No other number of requests fits the replies. */
  lemma RequestedOnce(policy: RetryPolicy, network: Network, m: nat, n: nat)
    requires Requested(policy, network, m) && Requested(policy, network, n)
    ensures m == n
  {
  }

  /** How a request that made `n` requests ends, one equivalence for each way. */
  ghost predicate EndsAs(policy: RetryPolicy, network: Network, n: nat, outcome: Outcome<Body, Failure>)
  {
    var last := network.replies(n);
    && (outcome.Cancelled? <==> last.IsCancelled? || (Retryable(last) && n < policy.maxAttempts))
    && (outcome == Error(TransportFailure) <==> last.TransportFails? && n == policy.maxAttempts)
    && (forall s :: outcome == Error(StatusFailure(s)) <==>
        last.Replied? && last.response.status == s && !Succeeded(last) && (Retryable(last) ==> n == policy.maxAttempts))
    && (outcome == Error(ProtocolFailure) <==> Succeeded(last) && last.response.body.NotJson?)
    && (outcome == Error(UnexpectedError) <==> last.RaisesOther?)
    && (forall b :: outcome == Value(b) <==> Succeeded(last) && last.response.body == b && !b.NotJson?)
  }

  /** What a request ends with is decided by the replies and the sleeps alone. */
  lemma RequestEnds(policy: RetryPolicy, network: Network)
    requires 1 <= policy.maxAttempts
    ensures var run := RequestRun(policy, network);
      Requested(policy, network, run.attempts) && EndsAs(policy, network, run.attempts, JsonOutcome(run.outcome))
  {
    var run := RequestRun(policy, network);
    RunMeets(policy, Requesting(network), IsRetryable, network.sleeps, 1);
    forall k: nat
      ensures Requesting(network)(k) == Attempted(network.replies(k))
      ensures GoesOn(policy, Requesting(network), IsRetryable, k) <==>
              k < policy.maxAttempts && Retryable(network.replies(k))
    {
      assert Requesting(network)(k) == Attempted(network.replies(k));
    }
    assert Meets(policy, Requesting(network), IsRetryable, network.sleeps, 1, run);
  }

  // ----- the outer loop -----

  /** `complete_text` needs content; `complete_json` needs content that is a JSON object. */
  function CompletionOutcome(outcome: Outcome<Body, Failure>, json: bool): Outcome<string, Failure>
  {
    match outcome
    case Value(Content(text, isObject)) => if json && !isObject then Error(ProtocolFailure) else Value(text)
    case Value(_) => Error(ProtocolFailure)
    case Error(failure) => Error(failure)
    case Cancelled => Cancelled
    case NoAttempt => NoAttempt
  }

  predicate RetriedByOuter(failure: Failure)
  {
    failure.ProtocolFailure?
  }

  /** The network of each outer attempt, and the outer loop's sleeps. */
  datatype World = World(networks: nat -> Network, sleeps: nat -> bool)

  function Completing(policy: RetryPolicy, world: World, json: bool): nat -> Outcome<string, Failure>
  {
    (k: nat) => CompletionOutcome(JsonOutcome(RequestRun(policy, world.networks(k)).outcome), json)
  }

  function CompletionRun(policy: RetryPolicy, world: World, json: bool): Run<string, Failure>
  {
    RetryRun(policy, Completing(policy, world, json), RetriedByOuter, world.sleeps, 1)
  }

  /** The requests of the first `n` outer attempts. */
  ghost function Requests(policy: RetryPolicy, world: World, n: nat): nat
  {
    if n == 0 then 0 else Requests(policy, world, n - 1) + RequestRun(policy, world.networks(n)).attempts
  }

  ghost function InnerSleeps(policy: RetryPolicy, world: World, n: nat): nat
  {
    if n == 0 then 0 else InnerSleeps(policy, world, n - 1) + |RequestRun(policy, world.networks(n)).delays|
  }

  ghost function InnerDelay(policy: RetryPolicy, world: World, n: nat): real
  {
    if n == 0 then 0.0 else InnerDelay(policy, world, n - 1) + Total(RequestRun(policy, world.networks(n)).delays)
  }

  lemma Multiples(n: nat, m: nat)
    requires n > 0
    ensures n * m == (n - 1) * m + m
  {
  }

  lemma {:induction false} InnerRequests(policy: RetryPolicy, world: World, n: nat)
    requires 1 <= policy.maxAttempts
    ensures Requests(policy, world, n) <= n * policy.maxAttempts
  {
    if n == 0 {
    } else {
      InnerRequests(policy, world, n - 1);
      RunBounded(policy, Requesting(world.networks(n)), IsRetryable, world.networks(n).sleeps);
      Multiples(n, policy.maxAttempts);
    }
  }

  lemma {:induction false} InnerSleepsBounded(policy: RetryPolicy, world: World, n: nat)
    requires 1 <= policy.maxAttempts
    ensures InnerSleeps(policy, world, n) <= n * (policy.maxAttempts - 1)
  {
    if n == 0 {
    } else {
      InnerSleepsBounded(policy, world, n - 1);
      RunBounded(policy, Requesting(world.networks(n)), IsRetryable, world.networks(n).sleeps);
      Multiples(n, policy.maxAttempts - 1);
    }
  }

  lemma {:induction false} InnerDelayBounded(policy: RetryPolicy, world: World, n: nat)
    requires 1 <= policy.maxAttempts
    ensures InnerDelay(policy, world, n) <= Scaled(InnerSleeps(policy, world, n), policy.maxDelay)
  {
    if n == 0 {
    } else {
      InnerDelayBounded(policy, world, n - 1);
      RunBounded(policy, Requesting(world.networks(n)), IsRetryable, world.networks(n).sleeps);
      ScaledSum(InnerSleeps(policy, world, n - 1), |RequestRun(policy, world.networks(n)).delays|, policy.maxDelay);
    }
  }

  function SleepLimit(policy: RetryPolicy): nat
    requires 1 <= policy.maxAttempts
  {
    policy.maxAttempts * policy.maxAttempts - 1
  }

  lemma Squares(n: nat, attempts: nat, inner: nat, outer: nat)
    requires 1 <= attempts <= n && inner <= attempts * (n - 1) && outer <= n - 1
    ensures attempts * n <= n * n && inner + outer <= n * n - 1
  {
    assert attempts * (n - 1) <= n * (n - 1) == n * n - n;
  }

  /** One completion with at most N attempts in each loop issues at most N * N requests and sleeps at
      most N * N - 1 times. */
  lemma NestedBounds(policy: RetryPolicy, world: World, json: bool)
    requires 1 <= policy.maxAttempts
    ensures var n, run := policy.maxAttempts, CompletionRun(policy, world, json);
      && Requests(policy, world, run.attempts) <= n * n
      && InnerSleeps(policy, world, run.attempts) + |run.delays| <= SleepLimit(policy) == n * n - 1
  {
    var run := CompletionRun(policy, world, json);
    RunBounded(policy, Completing(policy, world, json), RetriedByOuter, world.sleeps);
    InnerRequests(policy, world, run.attempts);
    InnerSleepsBounded(policy, world, run.attempts);
    Squares(policy.maxAttempts, run.attempts, InnerSleeps(policy, world, run.attempts), |run.delays|);
  }

  /** All sleeps of a completion together take at most N * N - 1 times the maximum delay. */
  lemma NestedDelayBound(policy: RetryPolicy, world: World, json: bool)
    requires 1 <= policy.maxAttempts && 0.0 <= policy.maxDelay
    ensures var n, run := policy.maxAttempts, CompletionRun(policy, world, json);
      InnerDelay(policy, world, run.attempts) + Total(run.delays) <= (n * n - 1) as real * policy.maxDelay
  {
    ScaledDelayBound(policy, world, json);
    ScaledIsProduct(SleepLimit(policy), policy.maxDelay);
  }

  lemma ScaledDelayBound(policy: RetryPolicy, world: World, json: bool)
    requires 1 <= policy.maxAttempts && 0.0 <= policy.maxDelay
    ensures var run := CompletionRun(policy, world, json);
      InnerDelay(policy, world, run.attempts) + Total(run.delays) <= Scaled(SleepLimit(policy), policy.maxDelay)
  {
    var run := CompletionRun(policy, world, json);
    NestedBounds(policy, world, json);
    RunBounded(policy, Completing(policy, world, json), RetriedByOuter, world.sleeps);
    InnerDelayBounded(policy, world, run.attempts);
    DelaysAdd(InnerSleeps(policy, world, run.attempts), |run.delays|, SleepLimit(policy), policy.maxDelay);
  }

  lemma DelaysAdd(inner: nat, outer: nat, limit: nat, m: real)
    requires inner + outer <= limit && 0.0 <= m
    ensures Scaled(inner, m) + Scaled(outer, m) <= Scaled(limit, m)
  {
    ScaledSum(inner, outer, m);
    ScaledGrows(inner + outer, limit, m);
  }

  // ----- what a completion ends with, in terms of the network's replies -----

  /** A reply that does not carry what the completion needs. */
  predicate Unusable(reply: Reply, json: bool)
  {
    Succeeded(reply) && (!reply.response.body.Content? || (json && !reply.response.body.isObject))
  }

  /** The last reply of the inner run of attempt `k`. */
  function LastReply(policy: RetryPolicy, world: World, k: nat): Reply
  {
    world.networks(k).replies(RequestRun(policy, world.networks(k)).attempts)
  }

  /** The outer loop goes past an attempt exactly when its last reply was a success that carries no usable
      completion, attempts are left, and the sleep is not cancelled. */
  lemma GoesPastIff(policy: RetryPolicy, world: World, json: bool, k: nat)
    requires 1 <= policy.maxAttempts && 1 <= k <= CompletionRun(policy, world, json).attempts
    ensures k < CompletionRun(policy, world, json).attempts <==>
            Unusable(LastReply(policy, world, k), json) && k < policy.maxAttempts && world.sleeps(k)
  {
    var run := CompletionRun(policy, world, json);
    RunMeets(policy, Completing(policy, world, json), RetriedByOuter, world.sleeps, 1);
    RequestEnds(policy, world.networks(k));
    assert GoesOn(policy, Completing(policy, world, json), RetriedByOuter, k) <==>
      k < policy.maxAttempts && Unusable(LastReply(policy, world, k), json);
  }

  /** So only protocol failures are retried outside: a status or transport failure the inner loop ended with
      ends the completion. */
  lemma OnlyProtocolFailuresRetried(policy: RetryPolicy, world: World, json: bool, k: nat)
    requires 1 <= k < CompletionRun(policy, world, json).attempts
    ensures Unusable(LastReply(policy, world, k), json)
    ensures var inner := JsonOutcome(RequestRun(policy, world.networks(k)).outcome);
      inner == Error(ProtocolFailure) || (inner.Value? && CompletionOutcome(inner, json) == Error(ProtocolFailure))
  {
    if 1 <= policy.maxAttempts {
      GoesPastIff(policy, world, json, k);
      RequestEnds(policy, world.networks(k));
    }
  }

  /** How a completion ends, in terms of the last reply of its last attempt `n`; `m` requests were made in
      that attempt. */
  ghost predicate CompletesAs(policy: RetryPolicy, last: Reply, m: nat, n: nat, json: bool,
                              outcome: Outcome<string, Failure>)
  {
    && (outcome.Cancelled? <==>
        || last.IsCancelled? || (Retryable(last) && m < policy.maxAttempts)
        || (Unusable(last, json) && n < policy.maxAttempts))
    && (outcome == Error(TransportFailure) <==> last.TransportFails? && m == policy.maxAttempts)
    && (forall s :: outcome == Error(StatusFailure(s)) <==>
        last.Replied? && last.response.status == s && !Succeeded(last) && (Retryable(last) ==> m == policy.maxAttempts))
    && (outcome == Error(ProtocolFailure) <==> Unusable(last, json) && n == policy.maxAttempts)
    && (outcome == Error(UnexpectedError) <==> last.RaisesOther?)
    && (forall text :: outcome == Value(text) <==>
        Succeeded(last) && !Unusable(last, json) && last.response.body.text == text)
  }

  /** A completion ends as the last reply of its last attempt says: an exhausted transport failure or a
      status outside 2xx ends it at once. */
  lemma CompletionEnds(policy: RetryPolicy, world: World, json: bool)
    requires 1 <= policy.maxAttempts
    ensures var run := CompletionRun(policy, world, json);
      && 1 <= run.attempts <= policy.maxAttempts
      && CompletesAs(policy, LastReply(policy, world, run.attempts),
           RequestRun(policy, world.networks(run.attempts)).attempts, run.attempts, json, run.outcome)
  {
    var run := CompletionRun(policy, world, json);
    RunMeets(policy, Completing(policy, world, json), RetriedByOuter, world.sleeps, 1);
    GoesPastIff(policy, world, json, run.attempts);
    RequestEnds(policy, world.networks(run.attempts));
    assert GoesOn(policy, Completing(policy, world, json), RetriedByOuter, run.attempts) <==>
      run.attempts < policy.maxAttempts && Unusable(LastReply(policy, world, run.attempts), json);
  }

  // ----- the bound is attained -----

  /** Each inner loop has all but its last request fail, and its last reply is not JSON. */
  function WorstReply(policy: RetryPolicy, k: nat): Reply
  {
    if k < policy.maxAttempts then TransportFails else Replied(Response(200, NotJson))
  }

  function WorstNetwork(policy: RetryPolicy): Network
  {
    Network((k: nat) => WorstReply(policy, k), (k: nat) => true)
  }

  function WorstWorld(policy: RetryPolicy): World
  {
    World((k: nat) => WorstNetwork(policy), (k: nat) => true)
  }

  lemma AllAttemptsMade<T(!new), E(!new)>(policy: RetryPolicy, operation: nat -> Outcome<T, E>, retryable: E -> bool,
                                          sleeps: nat -> bool)
    requires 1 <= policy.maxAttempts
    requires forall k :: 1 <= k < policy.maxAttempts ==> GoesOn(policy, operation, retryable, k) && sleeps(k)
    ensures var run := RetryRun(policy, operation, retryable, sleeps, 1);
      run.attempts == policy.maxAttempts && |run.delays| == policy.maxAttempts - 1
        && run.outcome == operation(policy.maxAttempts)
  {
    RunMeets(policy, operation, retryable, sleeps, 1);
  }

  lemma WorstInner(policy: RetryPolicy)
    requires 1 <= policy.maxAttempts
    ensures var run := RequestRun(policy, WorstNetwork(policy));
      && run.attempts == policy.maxAttempts && |run.delays| == policy.maxAttempts - 1
      && JsonOutcome(run.outcome) == Error(ProtocolFailure)
  {
    var network := WorstNetwork(policy);
    forall k: nat ensures Requesting(network)(k) == Attempted(WorstReply(policy, k)) {
      assert network.replies(k) == WorstReply(policy, k);
    }
    forall k: nat | 1 <= k < policy.maxAttempts
      ensures GoesOn(policy, Requesting(network), IsRetryable, k) && network.sleeps(k) {}
    AllAttemptsMade(policy, Requesting(network), IsRetryable, network.sleeps);
  }

  lemma {:induction false} WorstRequests(policy: RetryPolicy, n: nat)
    requires 1 <= policy.maxAttempts
    ensures Requests(policy, WorstWorld(policy), n) == n * policy.maxAttempts
    ensures InnerSleeps(policy, WorstWorld(policy), n) == n * (policy.maxAttempts - 1)
  {
    if n == 0 {
    } else {
      WorstRequests(policy, n - 1);
      WorstInner(policy);
      Multiples(n, policy.maxAttempts);
      Multiples(n, policy.maxAttempts - 1);
    }
  }

  /** Both bounds are attained for every policy. */
  lemma NestedBoundsAttained(policy: RetryPolicy, json: bool)
    requires 1 <= policy.maxAttempts
    ensures var n, world := policy.maxAttempts, WorstWorld(policy);
      var run := CompletionRun(policy, world, json);
      && Requests(policy, world, run.attempts) == n * n
      && InnerSleeps(policy, world, run.attempts) + |run.delays| == n * n - 1
      && run.outcome == Error(ProtocolFailure)
  {
    var n, world := policy.maxAttempts, WorstWorld(policy);
    WorstInner(policy);
    forall k | 1 <= k <= n ensures Completing(policy, world, json)(k) == Error(ProtocolFailure) {
      assert world.networks(k) == WorstNetwork(policy);
    }
    forall k | 1 <= k < n
      ensures GoesOn(policy, Completing(policy, world, json), RetriedByOuter, k) && world.sleeps(k) {}
    AllAttemptsMade(policy, Completing(policy, world, json), RetriedByOuter, world.sleeps);
    WorstRequests(policy, n);
    assert n * (n - 1) == n * n - n;
  }
}
