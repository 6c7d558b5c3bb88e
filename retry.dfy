/** `upload_chunk_with_retry`: PUT one chunk to its presigned URL, up to `retries` attempts, with
    exponential backoff between attempts. The network is an oracle giving the response to each
    attempt; the sleeps are recorded as the list of delays, in milliseconds, in the order slept. */
module Retry {
  import opened Results

  /** `MAX_RETRIES`. */
  const MaxRetries: nat := 3
  /** `BASE_DELAY`, in milliseconds. */
  const BaseDelay: nat := 1000

  /** What `await fetch(url, {method: 'PUT', ...})` gives one attempt: a response with `ok` set and
      the `ETag` header (`None` when the header is absent), a response without `ok`, or a rejected
      promise (the request never got a response). */
  datatype Response = Ok(etag: Option<string>) | NotOk | NetworkError

  /** The response to attempt 0, 1, 2, ... of one chunk. */
  type Attempts = nat -> Response

  /** How the call ends: resolved with a tag, or rejected. A loop that never runs (`retries <= 0`)
      falls off the end of the function and resolves with `undefined`, which is `Uploaded(None)`. */
  datatype ChunkOutcome = Uploaded(etag: Option<string>) | Failed

  /** One call: its outcome, how many requests it sent and which delays it slept. */
  datatype RetryRun = RetryRun(outcome: ChunkOutcome, attempts: nat, delays: seq<nat>)

  function Pow2(k: nat): (p: nat)
    ensures p >= 1
  {
    if k == 0 then 1 else 2 * Pow2(k - 1)
  }

  /** `BASE_DELAY * Math.pow(2, attempt)`. */
  function Delay(attempt: nat): nat
  {
    BaseDelay * Pow2(attempt)
  }

  /** What the attempt loop does from attempt `from` on: the specification of the method below. */
  function Run(responses: Attempts, retries: nat, from: nat): RetryRun
    decreases retries - from
  {
    if from >= retries then RetryRun(Uploaded(None), 0, [])
    else
      match responses(from)
      case Ok(tag) => RetryRun(Uploaded(tag), 1, [])
      case NetworkError => RetryRun(Failed, 1, [])
      case NotOk =>
        if from < retries - 1 then
          var rest := Run(responses, retries, from + 1);
          RetryRun(rest.outcome, rest.attempts + 1, [Delay(from)] + rest.delays)
        else RetryRun(Failed, 1, [])
  }

  /** The attempt loop of `upload_chunk_with_retry`. */
  method UploadChunkWithRetry(responses: Attempts, retries: nat)
    returns (outcome: ChunkOutcome, attempts: nat, delays: seq<nat>)
    ensures RetryRun(outcome, attempts, delays) == Run(responses, retries, 0)
  {
    var attempt := 0;
    delays := [];
    while attempt < retries
      invariant attempt == 0 || attempt < retries
      invariant var rest := Run(responses, retries, attempt);
        Run(responses, retries, 0) == RetryRun(rest.outcome, rest.attempts + attempt, delays + rest.delays)
    {
      var response := responses(attempt);
      if response.Ok? {
        return Uploaded(response.etag), attempt + 1, delays;
      } else if response.NetworkError? {
        return Failed, attempt + 1, delays;
      } else if attempt < retries - 1 {
        ghost var rest := Run(responses, retries, attempt + 1);
        assert delays + ([Delay(attempt)] + rest.delays) == (delays + [Delay(attempt)]) + rest.delays;
        delays := delays + [Delay(attempt)];
      } else {
        return Failed, attempt + 1, delays;
      }
      attempt := attempt + 1;
    }
    return Uploaded(None), 0, delays;
  }

  /** A call with at least one attempt sends between 1 and `retries` requests, and sleeps once
      after every request but the last, for `BASE_DELAY * 2^attempt` milliseconds. */
  lemma {:induction false} RunBounds(responses: Attempts, retries: nat, from: nat)
    requires from < retries
    ensures var r := Run(responses, retries, from);
      && 1 <= r.attempts <= retries - from
      && |r.delays| == r.attempts - 1
      && forall k :: 0 <= k < |r.delays| ==> r.delays[k] == Delay(from + k)
    decreases retries - from
  {
    if responses(from).NotOk? && from < retries - 1 {
      RunBounds(responses, retries, from + 1);
    }
  }

  /** With `MAX_RETRIES` the delays slept are a prefix of 1000, 2000 ms: never a third sleep, so no
      sleep after the last attempt. */
  lemma DelaysWithMaxRetries(responses: Attempts)
    ensures Run(responses, MaxRetries, 0).delays in [[], [1000], [1000, 2000]]
  {
    RunBounds(responses, MaxRetries, 0);
    var d := Run(responses, MaxRetries, 0).delays;
    assert Delay(0) == 1000 && Delay(1) == 2000;
    if |d| == 1 {
      assert d == [1000];
    } else if |d| == 2 {
      assert d == [1000, 2000];
    }
  }

  /** Every attempt from `from` up to (not including) `to` got a response without `ok`. */
  predicate AllNotOk(responses: Attempts, from: nat, to: nat)
  {
    forall k :: from <= k < to ==> responses(k).NotOk?
  }

  /** A call with at least one attempt resolves exactly when some attempt `k < retries` gets an ok
      response after `k` plain failures, and then resolves with that response's ETag; it is
      rejected when an attempt is rejected or every one of the `retries` attempts fails. */
  lemma {:induction false} RunUploads(responses: Attempts, retries: nat, from: nat, k: nat)
    requires from <= k < retries
    ensures (AllNotOk(responses, from, k) && responses(k).Ok?) <==>
            (Run(responses, retries, from).outcome.Uploaded? && Run(responses, retries, from).attempts == k - from + 1)
    ensures AllNotOk(responses, from, k) && responses(k).Ok? ==>
            Run(responses, retries, from).outcome == Uploaded(responses(k).etag)
    decreases k - from
  {
    RunBounds(responses, retries, from);
    if from < k {
      if responses(from).NotOk? && from < retries - 1 {
        RunUploads(responses, retries, from + 1, k);
        if Run(responses, retries, from + 1).outcome.Uploaded? && Run(responses, retries, from + 1).attempts == k - from {
          assert AllNotOk(responses, from + 1, k);
        }
      }
    }
  }

  /** A call with at least one attempt is rejected exactly when every attempt before the first
      non-`NotOk` one fails, and that one is rejected or no ok response comes within `retries`. */
  lemma {:induction false} RunFails(responses: Attempts, retries: nat, from: nat)
    requires from < retries
    ensures Run(responses, retries, from).outcome.Failed? <==>
            forall k :: from <= k < retries && AllNotOk(responses, from, k) ==> !responses(k).Ok?
    decreases retries - from
  {
    if responses(from).NotOk? && from < retries - 1 {
      RunFails(responses, retries, from + 1);
      var failed := Run(responses, retries, from + 1).outcome.Failed?;
      if failed {
        forall k | from <= k < retries && AllNotOk(responses, from, k) ensures !responses(k).Ok? {
          if k > from {
            assert AllNotOk(responses, from + 1, k);
          }
        }
      } else {
        var k :| from + 1 <= k < retries && AllNotOk(responses, from + 1, k) && responses(k).Ok?;
        assert AllNotOk(responses, from, k);
      }
    } else if responses(from).Ok? {
      assert AllNotOk(responses, from, from);
    }
  }
}
