/**
 * PayloadSource: `get_latest_tx_hash_from_blockvision`, the bounded polling of
 * the transaction indexer. Each HTTP exchange is an oracle value, indexed by
 * the number of requests issued before it; time is a virtual millisecond clock
 * that every iteration advances by the 200 ms pacing sleep, the request's own
 * latency and the pause its outcome triggers.
 */
module Indexer {
  import opened Wrappers

  const MAX_REQUESTS: nat := 50
  /** `timeout_seconds = 10`, in milliseconds. */
  const DEFAULT_TIMEOUT_MS: nat := 10_000
  /** `time.sleep(0.2)` before every request. */
  const PACING_MS: nat := 200
  /** `time.sleep(5)` after a 429. */
  const THROTTLE_PAUSE_MS: nat := 5_000
  /** `time.sleep(2)` after a request exception whose text says "timed out". */
  const TIMEOUT_PAUSE_MS: nat := 2_000
  /** `time.sleep(1)` in the generic exception handler (403 and other statuses end up there). */
  const ERROR_PAUSE_MS: nat := 1_000

  /**
   * What one `requests.get` produced: an HTTP status with the `hash` fields of
   * `result.data` (a missing field read as ""), or a request exception.
   */
  datatype Reply = Http(status: int, hashes: seq<string>) | NetErr(timedOut: bool)

  /** One request: how long it took and what came back. */
  datatype Exchange = Exchange(latencyMs: nat, reply: Reply)

  /** How the loop body treats a reply. */
  datatype Step = Found(hash: string) | Throttled | Retry(pauseMs: nat)

  datatype PollError = Exhausted

  /** The final state of the loop; `hash` is what the function returns, `None` the final raise. */
  datatype PollOutcome = PollOutcome(hash: Option<string>, issued: nat, count: nat, elapsedMs: nat)

  /** Line 116: a usable hash is non-empty and starts with `0x`. */
  predicate IsTxHash(h: string) {
    h != "" && |h| >= 2 && h[..2] == "0x"
  }

  /**
   * The decision table of the loop body. A 403 and any other non-200 status
   * raise inside the `try` and are retried by the generic handler; a 429 is
   * the only reply that is not counted.
   */
  function Classify(reply: Reply): (s: Step)
    ensures s.Throttled? <==> reply.Http? && reply.status == 429
    ensures s.Found? <==> reply.Http? && reply.status == 200 && reply.hashes != [] && IsTxHash(reply.hashes[0])
    ensures s.Found? ==> s.hash == reply.hashes[0]
    ensures reply.Http? && reply.status != 200 && reply.status != 429 ==> s == Retry(ERROR_PAUSE_MS)
    ensures reply.Http? && reply.status == 200 && !s.Found? ==> s == Retry(0)
    ensures reply.NetErr? ==> s == Retry(if reply.timedOut then TIMEOUT_PAUSE_MS else 0)
  {
    match reply
    case NetErr(timedOut) => Retry(if timedOut then TIMEOUT_PAUSE_MS else 0)
    case Http(status, hashes) =>
      if status == 403 then Retry(ERROR_PAUSE_MS)
      else if status == 429 then Throttled
      else if status != 200 then Retry(ERROR_PAUSE_MS)
      else if hashes == [] then Retry(0)
      else if !IsTxHash(hashes[0]) then Retry(0)
      else Found(hashes[0])
  }

  /** Virtual time one iteration takes. */
  function Cost(e: Exchange): (ms: nat)
    ensures ms >= PACING_MS
  {
    PACING_MS + e.latencyMs +
      match Classify(e.reply)
      case Throttled => THROTTLE_PAUSE_MS
      case Retry(p) => p
      case Found(_) => 0
  }

  /** Reference semantics of the loop from a given state (requests issued, `request_count`, elapsed time). */
  function Poll(net: nat -> Exchange, timeoutMs: nat, issued: nat, count: nat, elapsedMs: nat): (o: PollOutcome)
    ensures o.hash.Some? ==> IsTxHash(o.hash.value)
    ensures o.hash.None? ==> o.count >= MAX_REQUESTS || o.elapsedMs >= timeoutMs
    decreases if elapsedMs < timeoutMs then timeoutMs - elapsedMs else 0
  {
    if !(elapsedMs < timeoutMs && count < MAX_REQUESTS) then PollOutcome(None, issued, count, elapsedMs)
    else
      var e := net(issued);
      var next := elapsedMs + Cost(e);
      match Classify(e.reply)
      case Found(h) => PollOutcome(Some(h), issued + 1, count, next)
      case Throttled => Poll(net, timeoutMs, issued + 1, count, next)
      case Retry(_) => Poll(net, timeoutMs, issued + 1, count + 1, next)
  }

  /** Requests in `[from, to)` whose reply is counted (everything but a 429). */
  function Retries(net: nat -> Exchange, from: nat, to: nat): (n: nat)
    ensures from <= to ==> n <= to - from
    decreases if from < to then to - from else 0
  {
    if from >= to then 0
    else (if Classify(net(from).reply).Retry? then 1 else 0) + Retries(net, from + 1, to)
  }

  /** Virtual time spent by the requests in `[from, to)`. */
  function Elapsed(net: nat -> Exchange, from: nat, to: nat): nat
    decreases if from < to then to - from else 0
  {
    if from >= to then 0 else Cost(net(from)) + Elapsed(net, from + 1, to)
  }

  /** Requests of an outcome that did not deliver the returned hash. */
  function Misses(o: PollOutcome): nat {
    if o.hash.Some? && o.issued > 0 then o.issued - 1 else o.issued
  }

  /** What the loop keeps true from any reachable state on. */
  lemma {:induction false} PollInvariants(net: nat -> Exchange, timeoutMs: nat, issued: nat, count: nat, elapsedMs: nat)
    requires count <= MAX_REQUESTS
    requires PACING_MS * issued <= elapsedMs && PACING_MS * issued < timeoutMs + PACING_MS
    ensures var o := Poll(net, timeoutMs, issued, count, elapsedMs);
      && issued <= Misses(o) <= o.issued <= Misses(o) + 1
      && count <= o.count <= MAX_REQUESTS
      && o.count == count + Retries(net, issued, Misses(o))
      && o.elapsedMs == elapsedMs + Elapsed(net, issued, o.issued)
      && PACING_MS * o.issued < timeoutMs + PACING_MS
      && (o.hash.Some? ==> o.issued == Misses(o) + 1 && Classify(net(Misses(o)).reply) == Found(o.hash.value))
      && (o.hash.None? ==> o.issued == Misses(o) && (o.count == MAX_REQUESTS || o.elapsedMs >= timeoutMs))
      && (forall k :: issued <= k < Misses(o) ==> !Classify(net(k).reply).Found?)
    decreases if elapsedMs < timeoutMs then timeoutMs - elapsedMs else 0
  {
    if elapsedMs < timeoutMs && count < MAX_REQUESTS {
      var e := net(issued);
      var next := elapsedMs + Cost(e);
      match Classify(e.reply)
      case Found(h) =>
      case Throttled =>
        PollInvariants(net, timeoutMs, issued + 1, count, next);
      case Retry(_) =>
        PollInvariants(net, timeoutMs, issued + 1, count + 1, next);
    }
  }

  /**
   * The polling contract from the start: a returned hash is non-empty and starts
   * with `0x` and comes from the first reply that carried one; `request_count`
   * stays within 50, grows by one for every reply except a 429, and the loop
   * gives up only when the count hit 50 or the deadline passed.
   */
  lemma PollFromStart(net: nat -> Exchange, timeoutMs: nat)
    ensures var o := Poll(net, timeoutMs, 0, 0, 0);
      && o.count <= MAX_REQUESTS && o.count <= o.issued
      && o.count == Retries(net, 0, Misses(o))
      && o.elapsedMs == Elapsed(net, 0, o.issued)
      && PACING_MS * o.issued < timeoutMs + PACING_MS
      && (o.hash.Some? ==> IsTxHash(o.hash.value) && o.issued >= 1)
      && (o.hash.Some? ==> Classify(net(o.issued - 1).reply) == Found(o.hash.value))
      && (o.hash.None? ==> o.count == MAX_REQUESTS || o.elapsedMs >= timeoutMs)
      && (forall k :: 0 <= k < Misses(o) ==> !Classify(net(k).reply).Found?)
  {
    PollInvariants(net, timeoutMs, 0, 0, 0);
  }

  /** With the default 10 s deadline and 200 ms pacing, at most 50 requests go out, 429s included. */
  lemma DefaultDeadlineBoundsRequests(net: nat -> Exchange)
    ensures Poll(net, DEFAULT_TIMEOUT_MS, 0, 0, 0).issued <= MAX_REQUESTS
  {
    PollFromStart(net, DEFAULT_TIMEOUT_MS);
  }

  /** A first reply carrying a valid hash ends the search after one request. */
  lemma FirstReplyFound(net: nat -> Exchange, h: string)
    requires IsTxHash(h) && net(0).reply.Http? && net(0).reply.status == 200
    requires net(0).reply.hashes != [] && net(0).reply.hashes[0] == h
    ensures Poll(net, DEFAULT_TIMEOUT_MS, 0, 0, 0) == PollOutcome(Some(h), 1, 0, PACING_MS + net(0).latencyMs)
  {
  }

  /** A 403 does not stop the search: it is counted and retried after a one-second pause. */
  lemma ForbiddenIsRetried(net: nat -> Exchange, h: string)
    requires net(0) == Exchange(0, Http(403, []))
    requires IsTxHash(h) && net(1) == Exchange(0, Http(200, [h]))
    ensures Poll(net, DEFAULT_TIMEOUT_MS, 0, 0, 0) == PollOutcome(Some(h), 2, 1, 1_400)
  {
    assert Poll(net, DEFAULT_TIMEOUT_MS, 0, 0, 0) == Poll(net, DEFAULT_TIMEOUT_MS, 1, 1, 1_200);
  }

  /** Replies that are all 429 leave `request_count` at zero; only the deadline ends the loop. */
  lemma ThrottlingIsNotCounted(net: nat -> Exchange)
    requires forall k :: net(k) == Exchange(0, Http(429, []))
    ensures Poll(net, DEFAULT_TIMEOUT_MS, 0, 0, 0) == PollOutcome(None, 2, 0, 10_400)
  {
    assert Poll(net, DEFAULT_TIMEOUT_MS, 0, 0, 0) == Poll(net, DEFAULT_TIMEOUT_MS, 1, 0, 5_200);
    assert Poll(net, DEFAULT_TIMEOUT_MS, 1, 0, 5_200) == Poll(net, DEFAULT_TIMEOUT_MS, 2, 0, 10_400);
  }

  /**
   * `get_latest_tx_hash_from_blockvision`, with the branches of the loop body
   * written as in the source. The out-parameters besides `r` expose the final
   * request number, `request_count` and the virtual clock.
   */
  method LatestTxHash(net: nat -> Exchange, timeoutMs: nat)
    returns (r: Result<string, PollError>, issued: nat, count: nat, elapsedMs: nat)
    ensures Poll(net, timeoutMs, 0, 0, 0)
      == PollOutcome(if r.Success? then Some(r.value) else None, issued, count, elapsedMs)
    ensures count <= MAX_REQUESTS && count <= issued
    ensures PACING_MS * issued < timeoutMs + PACING_MS
    ensures r.Success? ==> IsTxHash(r.value)
    ensures r.Failure? ==> count == MAX_REQUESTS || elapsedMs >= timeoutMs
  {
    PollFromStart(net, timeoutMs);
    issued, count, elapsedMs := 0, 0, 0;
    while elapsedMs < timeoutMs && count < MAX_REQUESTS
      invariant Poll(net, timeoutMs, issued, count, elapsedMs) == Poll(net, timeoutMs, 0, 0, 0)
      decreases if elapsedMs < timeoutMs then timeoutMs - elapsedMs else 0
    {
      var e := net(issued);
      elapsedMs := elapsedMs + PACING_MS + e.latencyMs;
      issued := issued + 1;
      match e.reply
      case Http(status, hashes) =>
        if status == 403 {
          elapsedMs, count := elapsedMs + ERROR_PAUSE_MS, count + 1;
        } else if status == 429 {
          elapsedMs := elapsedMs + THROTTLE_PAUSE_MS;
        } else if status != 200 {
          elapsedMs, count := elapsedMs + ERROR_PAUSE_MS, count + 1;
        } else if hashes == [] {
          count := count + 1;
        } else if !IsTxHash(hashes[0]) {
          count := count + 1;
        } else {
          r := Success(hashes[0]);
          return;
        }
      case NetErr(timedOut) =>
        if timedOut {
          elapsedMs := elapsedMs + TIMEOUT_PAUSE_MS;
        }
        count := count + 1;
    }
    r := Failure(Exhausted);
  }
}
