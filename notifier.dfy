/** notify_evaluation: POST a fixed seven-field payload to the evaluation
    callback, retrying with exponential backoff.

    The network and the clock are replaced by data. `outcomes[k]` is what
    the k-th POST attempt (0-based) meets: an HTTP status, or a transport
    error that `requests` raises; an attempt past the end of the script
    meets a transport error. Instead of sleeping, the loop records each
    delay it would sleep for. */
module Notifier {
  import opened Common

  datatype PostOutcome = Status(code: int) | TransportError

  /** Only a status of exactly 200 counts as delivered. */
  predicate IsSuccess(o: PostOutcome)
  {
    o.Status? && o.code == 200
  }

  function OutcomeAt(outcomes: seq<PostOutcome>, k: nat): PostOutcome
  {
    if k < |outcomes| then outcomes[k] else TransportError
  }

  /** The arguments the handlers pass besides the URL. */
  datatype NotificationPayload = NotificationPayload(
    email: string,
    task: string,
    round: int,
    nonce: string,
    repoUrl: string,
    commitSha: string,
    pagesUrl: string)

  /** A JSON scalar of the payload. */
  datatype Field = Text(s: string) | Number(n: int)

  /** One POST request as sent. */
  datatype Post = Post(url: string, headers: map<string, string>, body: map<string, Field>)

  const Headers: map<string, string> := map["Content-Type" := "application/json"]

  /** The number of attempts `range(max_retries)` allows. */
  function Budget(maxRetries: int): nat
  {
    if maxRetries <= 0 then 0 else maxRetries
  }

  // ---------------------------------------------------------------------
  // The payload and its decoding
  // ---------------------------------------------------------------------

  /** The JSON object sent on every attempt; the round goes under "round".
      A receiver reads every argument back unchanged. */
  function PayloadJson(p: NotificationPayload): (m: map<string, Field>)
    ensures PayloadOfJson(m) == Some(p)
  {
    map[
      "email" := Text(p.email),
      "task" := Text(p.task),
      "round" := Number(p.round),
      "nonce" := Text(p.nonce),
      "repo_url" := Text(p.repoUrl),
      "commit_sha" := Text(p.commitSha),
      "pages_url" := Text(p.pagesUrl)]
  }

  /** The payload has exactly seven keys, the round number under "round". */
  lemma PayloadShape(p: NotificationPayload)
    ensures PayloadJson(p).Keys == {"email", "task", "round", "nonce", "repo_url", "commit_sha", "pages_url"}
    ensures |PayloadJson(p)| == 7
    ensures PayloadJson(p)["round"] == Number(p.round)
  {
    assert |PayloadJson(p).Keys| == 7;
  }

  /** How a receiver reads the payload back: every key present with the
      kind of value that was sent. */
  function PayloadOfJson(m: map<string, Field>): Option<NotificationPayload>
  {
    if && "email" in m && m["email"].Text?
       && "task" in m && m["task"].Text?
       && "round" in m && m["round"].Number?
       && "nonce" in m && m["nonce"].Text?
       && "repo_url" in m && m["repo_url"].Text?
       && "commit_sha" in m && m["commit_sha"].Text?
       && "pages_url" in m && m["pages_url"].Text?
    then
      Some(NotificationPayload(m["email"].s, m["task"].s, m["round"].n, m["nonce"].s,
                               m["repo_url"].s, m["commit_sha"].s, m["pages_url"].s))
    else None
  }

  // ---------------------------------------------------------------------
  // The specification of a run
  // ---------------------------------------------------------------------

  function Pow2(k: nat): (r: nat)
    ensures r >= 1
  {
    if k == 0 then 1 else 2 * Pow2(k - 1)
  }

  /** The delays slept after n failed attempts: 1, 2, 4, ..., 2^(n-1). */
  function Backoff(n: nat): (d: seq<nat>)
    ensures |d| == n
    decreases n
  {
    if n == 0 then [] else Backoff(n - 1) + [Pow2(n - 1)]
  }

  function Sum(xs: seq<nat>): nat
    decreases |xs|
  {
    if xs == [] then 0 else Sum(xs[..|xs| - 1]) + xs[|xs| - 1]
  }

  /** The first of the attempts 0..n-1 that meets status 200, if any. */
  function FirstSuccess(outcomes: seq<PostOutcome>, n: nat): (r: Option<nat>)
    ensures r.Some? ==> r.value < n && IsSuccess(OutcomeAt(outcomes, r.value))
    ensures r.Some? ==> forall j :: 0 <= j < r.value ==> !IsSuccess(OutcomeAt(outcomes, j))
    ensures r.None? ==> forall j :: 0 <= j < n ==> !IsSuccess(OutcomeAt(outcomes, j))
    decreases n
  {
    if n == 0 then None
    else
      match FirstSuccess(outcomes, n - 1)
      case Some(k) => Some(k)
      case None => if IsSuccess(OutcomeAt(outcomes, n - 1)) then Some(n - 1) else None
  }

  /** What a call observably does: how many POSTs it makes, the delays it
      sleeps, and whether the server acknowledged the notification. */
  datatype Run = Run(attempts: nat, sleeps: seq<nat>, delivered: bool)

  /** A call of notify_evaluation made by a handler, with its run. */
  datatype Notice = Notice(url: string, payload: NotificationPayload, run: Run)

  /** The default of max_retries. */
  const DefaultMaxRetries: int := 5

  /** The run of notify_evaluation against a given script of outcomes. */
  function Delivery(outcomes: seq<PostOutcome>, maxRetries: int): (r: Run)
    ensures r.attempts <= Budget(maxRetries)
    ensures r.delivered ==> r.attempts >= 1 && IsSuccess(OutcomeAt(outcomes, r.attempts - 1))
    ensures forall j :: 0 <= j < r.attempts - 1 ==> !IsSuccess(OutcomeAt(outcomes, j))
    ensures !r.delivered ==> r.attempts == Budget(maxRetries)
    ensures !r.delivered ==> forall j :: 0 <= j < r.attempts ==> !IsSuccess(OutcomeAt(outcomes, j))
    ensures r.sleeps == Backoff(if r.delivered then r.attempts - 1 else r.attempts)
  {
    var n := Budget(maxRetries);
    match FirstSuccess(outcomes, n)
    case Some(k) => Run(k + 1, Backoff(k), true)
    case None => Run(n, Backoff(n), false)
  }

  // ---------------------------------------------------------------------
  // notify_evaluation
  // ---------------------------------------------------------------------

  /** The retry loop. Returns the run and every request it sent; it always
      returns normally, whatever the outcomes. */
  method NotifyEvaluation(evaluationUrl: string, payload: NotificationPayload, maxRetries: int,
                          outcomes: seq<PostOutcome>)
    returns (run: Run, posted: seq<Post>)
    ensures run == Delivery(outcomes, maxRetries)
    ensures |posted| == run.attempts
    ensures forall i :: 0 <= i < |posted| ==> posted[i] == Post(evaluationUrl, Headers, PayloadJson(payload))
  {
    var request := Post(evaluationUrl, Headers, PayloadJson(payload));
    var delay: nat := 1;
    var sleeps: seq<nat> := [];
    var attempt: nat := 0;
    posted := [];
    while attempt < maxRetries
      invariant attempt <= Budget(maxRetries)
      invariant delay == Pow2(attempt)
      invariant sleeps == Backoff(attempt)
      invariant |posted| == attempt
      invariant forall i :: 0 <= i < |posted| ==> posted[i] == request
      invariant forall j :: 0 <= j < attempt ==> !IsSuccess(OutcomeAt(outcomes, j))
    {
      posted := posted + [request];
      var outcome := OutcomeAt(outcomes, attempt);
      if outcome.Status? && outcome.code == 200 {
        StopsAtFirstSuccess(outcomes, maxRetries, attempt);
        return Run(attempt + 1, sleeps, true), posted;
      }
      sleeps := sleeps + [delay];
      delay := delay * 2;
      attempt := attempt + 1;
    }
    run := Run(attempt, sleeps, false);
  }

  // ---------------------------------------------------------------------
  // Properties of a run
  // ---------------------------------------------------------------------

  /** The k-th delay (0-based) is 2^k seconds. */
  lemma {:induction false} BackoffAt(n: nat, k: nat)
    requires k < n
    ensures Backoff(n)[k] == Pow2(k)
    decreases n
  {
    if k < n - 1 {
      BackoffAt(n - 1, k);
    }
  }

  /** The delays of n failures add up to 2^n - 1 seconds. */
  lemma {:induction false} BackoffTotal(n: nat)
    ensures Sum(Backoff(n)) == Pow2(n) - 1
    decreases n
  {
    if n > 0 {
      BackoffTotal(n - 1);
      assert Backoff(n)[..n - 1] == Backoff(n - 1);
    }
  }

  /** No attempt at all when max_retries <= 0. */
  lemma NoAttemptsWithoutBudget(outcomes: seq<PostOutcome>, maxRetries: int)
    requires maxRetries <= 0
    ensures Delivery(outcomes, maxRetries) == Run(0, [], false)
  {
  }

  /** The call stops right after the first attempt that meets 200: it makes
      k + 1 attempts and sleeps once after each of the k failures. */
  lemma StopsAtFirstSuccess(outcomes: seq<PostOutcome>, maxRetries: int, k: nat)
    requires k < Budget(maxRetries)
    requires IsSuccess(OutcomeAt(outcomes, k))
    requires forall j :: 0 <= j < k ==> !IsSuccess(OutcomeAt(outcomes, j))
    ensures Delivery(outcomes, maxRetries) == Run(k + 1, Backoff(k), true)
  {
  }

  /** A failed attempt (any status but 200, or a transport error) with
      budget left is followed by a sleep of 2^k seconds and another attempt. */
  lemma FailureIsRetried(outcomes: seq<PostOutcome>, maxRetries: int, k: nat)
    requires k + 1 < Budget(maxRetries)
    requires forall j :: 0 <= j <= k ==> !IsSuccess(OutcomeAt(outcomes, j))
    ensures Delivery(outcomes, maxRetries).attempts >= k + 2
    ensures Delivery(outcomes, maxRetries).sleeps[k] == Pow2(k)
  {
    var r := Delivery(outcomes, maxRetries);
    BackoffAt(if r.delivered then r.attempts - 1 else r.attempts, k);
  }

  /** When every attempt fails the call makes exactly max_retries attempts,
      sleeps 1, 2, ..., 2^(n-1) seconds (2^n - 1 in all) and returns. */
  lemma AllFailuresExhaustBudget(outcomes: seq<PostOutcome>, maxRetries: int)
    requires forall j :: 0 <= j < Budget(maxRetries) ==> !IsSuccess(OutcomeAt(outcomes, j))
    ensures Delivery(outcomes, maxRetries) == Run(Budget(maxRetries), Backoff(Budget(maxRetries)), false)
    ensures Sum(Delivery(outcomes, maxRetries).sleeps) == Pow2(Budget(maxRetries)) - 1
  {
    BackoffTotal(Budget(maxRetries));
  }

  /** With the default of five attempts and a server that never answers
      200, the delays are 1, 2, 4, 8 and 16 seconds. */
  lemma DefaultScheduleWhenAllFail(outcomes: seq<PostOutcome>)
    requires forall j :: 0 <= j < 5 ==> !IsSuccess(OutcomeAt(outcomes, j))
    ensures Delivery(outcomes, 5) == Run(5, [1, 2, 4, 8, 16], false)
  {
    AllFailuresExhaustBudget(outcomes, 5);
    assert Backoff(5) == [1, 2, 4, 8, 16];
  }
}
