/** `send_message`: post one message to a channel with a bounded retry loop.
    The network is replaced by the sequence of outcomes the successive POSTs
    would have, and sleeping by the list of requested sleep durations. */
module Sender {

  /** The `Retry-After` header of a 429 answer. `Unparsable` is a value that
      `float()` rejects; the resulting `ValueError` is handled by the catch-all
      `except Exception` branch. */
  datatype RetryAfter = Absent | Seconds(seconds: real) | Unparsable

  /** What one POST attempt produced. */
  datatype Attempt =
    | Response(status: int, retryAfter: RetryAfter)
    | Timeout          // asyncio.TimeoutError
    | ConnectionError  // aiohttp.ClientError
    | Failure          // any other exception

  /** The default `max_retries`. */
  const MaxRetries: int := 3
  /** The sleep used when a 429 answer has no `Retry-After` header. */
  const DefaultRetryAfter: real := 5.0

  /** The outcome of a whole call: the returned flag, the number of POSTs
      issued and the durations passed to `asyncio.sleep`, in order. */
  datatype Report = Report(delivered: bool, posts: nat, sleeps: seq<real>)

  /** How the loop reacts to one attempt: return true, return false, sleep
      and go round again. */
  datatype Reaction = Deliver | Refuse | Pause(seconds: real)

  function Pow2(k: nat): nat {
    if k == 0 then 1 else 2 * Pow2(k - 1)
  }

  predicate IsOk(a: Attempt) { a.Response? && a.status == 200 }
  predicate IsUnauthorized(a: Attempt) { a.Response? && a.status == 401 }

  /** The reaction to attempt number `k` (from 0) out of `n`: 200 delivers,
      401 refuses, 429 with a readable header sleeps for it (5 s when
      absent), and everything else backs off 2^k seconds unless it was the
      last attempt, which refuses. */
  function React(a: Attempt, k: nat, n: int): Reaction {
    if IsOk(a) then Deliver
    else if IsUnauthorized(a) then Refuse
    else if a.Response? && a.status == 429 && a.retryAfter.Absent? then Pause(DefaultRetryAfter)
    else if a.Response? && a.status == 429 && a.retryAfter.Seconds? then Pause(a.retryAfter.seconds)
    else if k == n - 1 then Refuse
    else Pause(Pow2(k) as real)
  }

  /** The loop `for attempt in range(n)` from attempt `k` on: the sleeps are
      the pauses of consecutive attempts starting at `k`; the run ends either
      on an attempt whose reaction is not a pause (whose reaction decides
      the result) or by exhausting the range, which returns false. */
  function Attempts(o: seq<Attempt>, k: nat, n: int): (r: Report)
    requires n <= |o|
    ensures k <= r.posts
    ensures r.posts == k + |r.sleeps| || r.posts == k + |r.sleeps| + 1
    ensures forall i :: 0 <= i < |r.sleeps| ==> k + i < |o| && React(o[k + i], k + i, n) == Pause(r.sleeps[i])
    ensures r.posts == k + |r.sleeps| + 1 ==>
      r.posts <= n && !React(o[r.posts - 1], r.posts - 1, n).Pause? &&
      (r.delivered <==> React(o[r.posts - 1], r.posts - 1, n) == Deliver)
    ensures r.posts == k + |r.sleeps| ==> !r.delivered && r.posts == (if k < n then n else k)
    decreases n - k
  {
    if k >= n then Report(false, k, [])
    else
      match React(o[k], k, n)
      case Deliver => Report(true, k + 1, [])
      case Refuse => Report(false, k + 1, [])
      case Pause(d) =>
        var rest := Attempts(o, k + 1, n);
        Report(rest.delivered, rest.posts, [d] + rest.sleeps)
  }

  /** `send_message(token, channel, content, n)`: a failed token pre-check
      returns false before any POST; otherwise the retry loop runs. At most
      `n` POSTs are ever made. */
  function Send(tokenOk: bool, o: seq<Attempt>, n: int): (r: Report)
    requires n <= |o|
    ensures !tokenOk ==> r == Report(false, 0, [])
    ensures r.posts <= (if n > 0 then n else 0)
    ensures |r.sleeps| <= r.posts
    ensures r.delivered ==> 0 < r.posts <= |o| && IsOk(o[r.posts - 1])
  {
    if !tokenOk then Report(false, 0, []) else Attempts(o, 0, n)
  }

  /** Attempts before the reached position were all pauses, so none of them
      was a 200 or a 401. */
  lemma {:induction false} NoEarlyExit(o: seq<Attempt>, k: nat, n: int, i: nat)
    requires n <= |o| && k <= i < Attempts(o, k, n).posts - 1
    ensures i < |o| && !IsOk(o[i]) && !IsUnauthorized(o[i])
  {
    var r := Attempts(o, k, n);
    assert i - k < |r.sleeps|;
    assert React(o[k + (i - k)], k + (i - k), n) == Pause(r.sleeps[i - k]);
  }

  /** The loop from `k` delivers exactly when some attempt `j` in `k..n` is a
      200 and no attempt between `k` and `j` is a 401. */
  lemma {:induction false} AttemptsDeliveredIff(o: seq<Attempt>, k: nat, n: int)
    requires n <= |o|
    ensures Attempts(o, k, n).delivered <==>
      exists j :: k <= j < n && IsOk(o[j]) && forall i :: k <= i < j ==> !IsUnauthorized(o[i])
    decreases n - k
  {
    var r := Attempts(o, k, n);
    if k >= n {
    } else {
      AttemptsDeliveredIff(o, k + 1, n);
      match React(o[k], k, n)
      case Deliver =>
        assert IsOk(o[k]);
      case Refuse =>
        if IsUnauthorized(o[k]) {
          forall j | k <= j < n && IsOk(o[j]) ensures exists i :: k <= i < j && IsUnauthorized(o[i]) {
            assert j != k;
          }
        } else {
          assert k == n - 1;
          forall j | k <= j < n ensures !IsOk(o[j]) { assert j == k; }
        }
      case Pause(d) =>
        assert !IsOk(o[k]) && !IsUnauthorized(o[k]);
        if r.delivered {
          var j :| k + 1 <= j < n && IsOk(o[j]) && forall i :: k + 1 <= i < j ==> !IsUnauthorized(o[i]);
          assert forall i :: k <= i < j ==> !IsUnauthorized(o[i]);
        } else {
          forall j | k <= j < n && IsOk(o[j]) ensures exists i :: k <= i < j && IsUnauthorized(o[i]) {
            assert j != k;
          }
        }
    }
  }

  /** The overall promise: the call succeeds exactly when the token passes
      the pre-check and, within the first `n` attempts, a 200 comes before
      any 401. */
  lemma SendDeliveredIff(tokenOk: bool, o: seq<Attempt>, n: int)
    requires n <= |o|
    ensures Send(tokenOk, o, n).delivered <==>
      tokenOk && exists j :: 0 <= j < n && IsOk(o[j]) && forall i :: 0 <= i < j ==> !IsUnauthorized(o[i])
  {
    AttemptsDeliveredIff(o, 0, n);
  }

  /** The first 200 ends the call: the last POST made is the first 200, and
      no later outcome is consumed. */
  lemma FirstOkEnds(tokenOk: bool, o: seq<Attempt>, n: int)
    requires n <= |o|
    requires Send(tokenOk, o, n).delivered
    ensures var p := Send(tokenOk, o, n).posts;
      0 < p <= n && IsOk(o[p - 1]) && forall i :: 0 <= i < p - 1 ==> !IsOk(o[i])
  {
    var r := Send(tokenOk, o, n);
    forall i | 0 <= i < r.posts - 1 ensures !IsOk(o[i]) {
      NoEarlyExit(o, 0, n, i);
    }
  }

  /** A 401 on attempt `k`, reached through pauses only, returns false at
      once: `k + 1` POSTs, and no sleep after it. */
  lemma {:induction false} UnauthorizedStops(o: seq<Attempt>, n: int, j: nat, k: nat)
    requires n <= |o| && j <= k < n
    requires IsUnauthorized(o[k])
    requires forall i :: j <= i < k ==> React(o[i], i, n).Pause?
    ensures Attempts(o, j, n).posts == k + 1 && !Attempts(o, j, n).delivered
    ensures |Attempts(o, j, n).sleeps| == k - j
    decreases k - j
  {
    if j < k {
      assert React(o[j], j, n).Pause?;
      UnauthorizedStops(o, n, j + 1, k);
    }
  }

  /** A destination that always answers 401 costs one POST and no sleep. */
  lemma UnauthorizedFirst(o: seq<Attempt>)
    requires |o| >= MaxRetries && IsUnauthorized(o[0])
    ensures Send(true, o, MaxRetries) == Report(false, 1, [])
  {
  }

  /** A destination that always answers a plain server error, with the
      default three retries: three POSTs, sleeps of 1 s and 2 s, false. */
  lemma AlwaysServerError(o: seq<Attempt>)
    requires |o| >= MaxRetries
    requires forall i :: 0 <= i < MaxRetries ==> o[i] == Response(500, Absent)
    ensures Send(true, o, MaxRetries) == Report(false, 3, [1.0, 2.0])
  {
    assert React(o[0], 0, 3) == Pause(1.0);
    assert React(o[1], 1, 3) == Pause(2.0);
    assert React(o[2], 2, 3) == Refuse;
  }

  /** Rate limiting does not extend the budget: when every attempt is a 429
      the loop exhausts after `n` POSTs and `n` sleeps and returns false. */
  lemma {:induction false} RateLimitedExhausts(o: seq<Attempt>, n: int, k: nat)
    requires n <= |o| && k <= n
    requires forall i :: k <= i < n ==> o[i] == Response(429, Absent)
    ensures Attempts(o, k, n) == Report(false, n, Repeat(DefaultRetryAfter, n - k))
    decreases n - k
  {
    if k < n {
      RateLimitedExhausts(o, n, k + 1);
    }
  }

  function Repeat(x: real, m: nat): (r: seq<real>)
    ensures |r| == m && forall i :: 0 <= i < m ==> r[i] == x
  {
    if m == 0 then [] else [x] + Repeat(x, m - 1)
  }

  /** The retry loop as the source writes it, with the attempt outcomes read
      from `o`; it issues exactly the POSTs and sleeps `Send` describes. */
  method SendMessage(tokenOk: bool, o: seq<Attempt>, n: int) returns (delivered: bool, posts: nat, sleeps: seq<real>)
    requires n <= |o|
    ensures Report(delivered, posts, sleeps) == Send(tokenOk, o, n)
  {
    if !tokenOk {
      return false, 0, [];
    }
    var attempt: nat := 0;
    posts, sleeps := 0, [];
    while attempt < n
      invariant posts == attempt
      invariant n > 0 ==> attempt <= n
      invariant Attempts(o, 0, n).delivered == Attempts(o, attempt, n).delivered
      invariant Attempts(o, 0, n).posts == Attempts(o, attempt, n).posts
      invariant Attempts(o, 0, n).sleeps == sleeps + Attempts(o, attempt, n).sleeps
      decreases n - attempt
    {
      var a := o[attempt];
      posts := attempt + 1;
      if a.Response? && a.status == 200 {
        return true, posts, sleeps;
      } else if a.Response? && a.status == 401 {
        return false, posts, sleeps;
      } else if a.Response? && a.status == 429 && !a.retryAfter.Unparsable? {
        var wait := if a.retryAfter.Seconds? then a.retryAfter.seconds else DefaultRetryAfter;
        assert React(a, attempt, n) == Pause(wait);
        PauseStep(o, attempt, n, sleeps);
        sleeps := sleeps + [wait];
        attempt := attempt + 1;
        continue;
      }
      if attempt == n - 1 {
        return false, posts, sleeps;
      }
      assert React(a, attempt, n) == Pause(Pow2(attempt) as real);
      PauseStep(o, attempt, n, sleeps);
      sleeps := sleeps + [Pow2(attempt) as real];
      attempt := attempt + 1;
    }
    return false, posts, sleeps;
  }

  /** One pausing attempt moves its sleep from the rest of the run onto the
      sleeps already made. */
  lemma PauseStep(o: seq<Attempt>, k: nat, n: int, done: seq<real>)
    requires n <= |o| && k < n && React(o[k], k, n).Pause?
    ensures Attempts(o, k, n).delivered == Attempts(o, k + 1, n).delivered
    ensures Attempts(o, k, n).posts == Attempts(o, k + 1, n).posts
    ensures done + Attempts(o, k, n).sleeps == (done + [React(o[k], k, n).seconds]) + Attempts(o, k + 1, n).sleeps
  {
  }
}
