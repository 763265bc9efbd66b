/** transport's retry layer and the Idempotency-Key above it. Durations are nanoseconds. */
module Retry {
  import opened Go
  import opened Collections

  /** What the base round-tripper did with one send. A response never comes with an
      error; its Retry-After header is "" when absent. */
  datatype Outcome = Responded(status: int, retryAfter: string) | Failed

  /** rng.Int63n: draw number n, below a positive bound. */
  type Draws = (nat, int) -> int

  ghost predicate InRange(draw: Draws) {
    forall n, bound :: bound > 0 ==> 0 <= draw(n, bound) < bound
  }

  /** The world one call runs in: the outcome of each attempt, whether the request's
      context is done when an attempt begins, and what backoff returns before it, given the
      Retry-After header of a previous response if one is passed, None standing for its
      panic. */
  datatype World = World(
    outcome: nat -> Outcome,
    cancelled: nat -> bool,
    pause: (nat, Option<string>) -> Option<int>)

  /** The pauses are those of backoff on the given draws. */
  ghost predicate PausesByBackoff(w: World, draw: Draws) {
    InRange(draw) && forall n, prev :: n >= 1 ==> w.pause(n, prev) == Backoff(draw, n, prev)
  }

  /** What happens on the wire and to the responses, in order. Attempts count from 0;
      Drain and Close act on the response of the attempt they name. */
  datatype Event =
    | Send(attempt: nat, key: string)
    | Drain(attempt: nat)
    | Close(attempt: nat)
    | Sleep(duration: int)

  /** The events of one call, the latest outermost. */
  datatype Log = Empty | Then(before: Log, last: Event)

  datatype Exit =
    | Response(attempt: nat, status: int)
    | NetworkError(attempt: nat)
    | ContextError(attempt: nat)
    | Nothing          // neither a response nor an error
    | Panicked         // Int63n was called with a bound below 1

  predicate RetryableStatus(code: int) {
    code in {408, 429, 502, 503, 504}
  }

  // ---- Backoff ----

  function Pow2(n: nat): (r: nat)
    ensures r >= 1
  {
    if n == 0 then 1 else 2 * Pow2(n - 1)
  }

  /** 1 << n in int64 */
  function ShiftOne(n: nat): int {
    if n >= 64 then 0 else Wrap64(Pow2(n))
  }

  /** The upper end of the jitter before attempt n >= 1, not yet capped, in int64. */
  function RawMax(n: nat): int
    requires n >= 1
  {
    Wrap64(Wrap64(ShiftOne(n - 1) * 100) * MILLISECOND)
  }

  function JitterMax(n: nat): int
    requires n >= 1
  {
    if RawMax(n) > SECOND then SECOND else RawMax(n)
  }

  /** The sleep that a Retry-After header asks for, capped at one second; None when there is
      no header or it is not a number of seconds. */
  function Requested(prev: Option<string>): Option<int> {
    if prev.None? || prev.value == "" then None
    else
      match ParseInt(prev.value)
      case None => None
      case Some(secs) =>
        if secs < 0 then None
        else
          var d := Wrap64(secs * SECOND);
          Some(if d > SECOND then SECOND else d)
  }

  /** The sleep before attempt n >= 1, given the Retry-After header of the previous response
      if that is passed; None stands for the panic of Int63n on a bound below 1. */
  function Backoff(draw: Draws, n: nat, prev: Option<string>): Option<int>
    requires n >= 1
  {
    if Requested(prev).Some? then Requested(prev)
    else
      var bound := Wrap64(JitterMax(n) + 1);
      if bound <= 0 then None else Some(draw(n, bound))
  }

  /** The attempts before which the shifted bound wraps to a negative number. */
  const PANIC_ATTEMPTS: set<int> := {38, 40, 41, 42, 43, 44, 46, 48, 49, 50, 51, 56}

  lemma WrapQuotient(x: int) returns (q: int)
    ensures Wrap64(x) == x - q * TWO_TO_THE_64
  {
    q := (x - Wrap64(x)) / TWO_TO_THE_64;
  }

  lemma SameInt64(a: int, b: int, k: int)
    requires IsInt64(a) && IsInt64(b) && a - b == k * TWO_TO_THE_64
    ensures a == b
  {
  }

  lemma Distribute(x: int, y: int, c: int)
    ensures (x - y) * c == x * c - y * c
  {
  }

  lemma WrapTimes(x: int, c: int)
    ensures Wrap64(Wrap64(x) * c) == Wrap64(x * c)
  {
    var q := WrapQuotient(x);
    var q1 := WrapQuotient(Wrap64(x) * c);
    var q2 := WrapQuotient(x * c);
    Distribute(x, q * TWO_TO_THE_64, c);
    assert (q * TWO_TO_THE_64) * c == (q * c) * TWO_TO_THE_64;
    SameInt64(Wrap64(Wrap64(x) * c), Wrap64(x * c), q2 - q1 - q * c);
  }

  /** Up to 64 shifts the bound is 100ms * 2^(n-1), wrapped once. */
  lemma RawMaxIsWrapped(n: nat)
    requires 1 <= n <= 64
    ensures RawMax(n) == Wrap64(Pow2(n - 1) * (100 * MILLISECOND))
  {
    WrapTimes(ShiftOne(n - 1) * 100, MILLISECOND);
    WrapTimes(Pow2(n - 1), 100 * MILLISECOND);
  }

  lemma WrapDouble(p: int)
    ensures Wrap64(Wrap64(p * (100 * MILLISECOND)) * 2) == Wrap64((2 * p) * (100 * MILLISECOND))
  {
    WrapTimes(p * (100 * MILLISECOND), 2);
  }

  lemma RawStep(n: nat)
    requires 1 <= n < 64
    ensures RawMax(n + 1) == Wrap64(RawMax(n) * 2)
  {
    RawMaxIsWrapped(n);
    RawMaxIsWrapped(n + 1);
    assert Pow2(n) == 2 * Pow2(n - 1);
    WrapDouble(Pow2(n - 1));
  }

  lemma {:induction false} Pow2IsMonotone(m: nat, n: nat)
    requires m <= n
    ensures Pow2(m) <= Pow2(n)
    decreases n
  {
    if m < n {
      Pow2IsMonotone(m, n - 1);
    }
  }

  lemma Powers()
    ensures Pow2(3) == 8 && Pow2(4) == 16 && Pow2(36) == 0x10_0000_0000
  {
    assert Pow2(12) == 0x1000;
    assert Pow2(24) == 0x100_0000;
  }

  lemma PowerRange(n: nat)
    ensures n <= 3 ==> Pow2(n) <= 8
    ensures n >= 4 ==> Pow2(n) >= 16
    ensures n <= 36 ==> Pow2(n) <= 0x10_0000_0000
  {
    Powers();
    if n <= 3 {
      Pow2IsMonotone(n, 3);
    } else {
      Pow2IsMonotone(4, n);
    }
    if n <= 36 {
      Pow2IsMonotone(n, 36);
    }
  }

  lemma SmallIsInt64(p: nat)
    requires p <= 0x10_0000_0000
    ensures IsInt64(p * (100 * MILLISECOND))
  {
  }

  /** Without overflow the bound is the exponential, capped at one second. */
  lemma NoOverflow(n: nat)
    requires 1 <= n <= 37
    ensures IsInt64(Pow2(n - 1) * (100 * MILLISECOND))
    ensures RawMax(n) == Pow2(n - 1) * (100 * MILLISECOND)
  {
    PowerRange(n - 1);
    SmallIsInt64(Pow2(n - 1));
    RawMaxIsWrapped(n);
  }

  lemma CappedBound(n: nat)
    requires 1 <= n <= 37
    ensures n <= 4 ==> JitterMax(n) == Pow2(n - 1) * (100 * MILLISECOND)
    ensures n >= 5 ==> JitterMax(n) == SECOND
  {
    NoOverflow(n);
    PowerRange(n - 1);
  }

  /** The bound before attempt n + k, from the one before attempt n. */
  function Doubled(v: int, k: nat): int {
    if k == 0 then v else Wrap64(Doubled(v, k - 1) * 2)
  }

  lemma {:induction false} RawDoubled(n: nat, k: nat)
    requires 1 <= n && n + k <= 64
    ensures RawMax(n + k) == Doubled(RawMax(n), k)
  {
    if k > 0 {
      RawDoubled(n, k - 1);
      RawStep(n + k - 1);
    }
  }

  // The doublings from 2^36 * 100ms on, five at a time.

  lemma Doubled37(v: int)
    requires v == 6871947673600000000
    ensures Doubled(v, 1) == -4702848726509551616
    ensures Doubled(v, 2) == 9041046620690448384
    ensures Doubled(v, 3) == -364650832328654848
    ensures Doubled(v, 4) == -729301664657309696
    ensures Doubled(v, 5) == -1458603329314619392
  {
  }

  lemma Doubled42(v: int)
    requires v == -1458603329314619392
    ensures Doubled(v, 1) == -2917206658629238784
    ensures Doubled(v, 2) == -5834413317258477568
    ensures Doubled(v, 3) == 6777917439192596480
    ensures Doubled(v, 4) == -4890909195324358656
    ensures Doubled(v, 5) == 8664925683060834304
  {
  }

  lemma Doubled47(v: int)
    requires v == 8664925683060834304
    ensures Doubled(v, 1) == -1116892707587883008
    ensures Doubled(v, 2) == -2233785415175766016
    ensures Doubled(v, 3) == -4467570830351532032
    ensures Doubled(v, 4) == -8935141660703064064
    ensures Doubled(v, 5) == 576460752303423488
  {
  }

  lemma Doubled52(v: int)
    requires v == 576460752303423488
    ensures Doubled(v, 1) == 1152921504606846976
    ensures Doubled(v, 2) == 2305843009213693952
    ensures Doubled(v, 3) == 4611686018427387904
    ensures Doubled(v, 4) == -9223372036854775808
    ensures Doubled(v, 5) == 0
  {
  }

  lemma Values37(v: int, k: nat)
    requires k <= 5 && v == Doubled(6871947673600000000, k)
    ensures v < 0 <==> 37 + k in PANIC_ATTEMPTS
    ensures v < 0 || v > SECOND
    ensures k == 5 ==> v == -1458603329314619392
  {
    Doubled37(6871947673600000000);
  }

  lemma Bounds37(n: nat)
    requires 37 <= n <= 42
    ensures RawMax(n) < 0 <==> n in PANIC_ATTEMPTS
    ensures RawMax(n) < 0 || RawMax(n) > SECOND
    ensures n == 42 ==> RawMax(n) == -1458603329314619392
  {
    assert RawMax(37) == 6871947673600000000 by {
      Powers();
      NoOverflow(37);
    }
    RawDoubled(37, n - 37);
    Values37(RawMax(n), n - 37);
  }

  lemma Values42(v: int, k: nat)
    requires k <= 5 && v == Doubled(-1458603329314619392, k)
    ensures v < 0 <==> 42 + k in PANIC_ATTEMPTS
    ensures v < 0 || v > SECOND
    ensures k == 5 ==> v == 8664925683060834304
  {
    Doubled42(-1458603329314619392);
  }

  lemma Bounds42(n: nat)
    requires 42 <= n <= 47
    ensures RawMax(n) < 0 <==> n in PANIC_ATTEMPTS
    ensures RawMax(n) < 0 || RawMax(n) > SECOND
    ensures n == 47 ==> RawMax(n) == 8664925683060834304
  {
    Bounds37(42);
    RawDoubled(42, n - 42);
    Values42(RawMax(n), n - 42);
  }

  lemma Values47(v: int, k: nat)
    requires k <= 5 && v == Doubled(8664925683060834304, k)
    ensures v < 0 <==> 47 + k in PANIC_ATTEMPTS
    ensures v < 0 || v > SECOND
    ensures k == 5 ==> v == 576460752303423488
  {
    Doubled47(8664925683060834304);
  }

  lemma Bounds47(n: nat)
    requires 47 <= n <= 52
    ensures RawMax(n) < 0 <==> n in PANIC_ATTEMPTS
    ensures RawMax(n) < 0 || RawMax(n) > SECOND
    ensures n == 52 ==> RawMax(n) == 576460752303423488
  {
    Bounds42(47);
    RawDoubled(47, n - 47);
    Values47(RawMax(n), n - 47);
  }

  lemma Values52(v: int, k: nat)
    requires k <= 5 && v == Doubled(576460752303423488, k)
    ensures v < 0 <==> 52 + k in PANIC_ATTEMPTS
    ensures k < 5 ==> v < 0 || v > SECOND
    ensures k == 5 ==> v == 0
  {
    Doubled52(576460752303423488);
  }

  lemma Bounds52(n: nat)
    requires 52 <= n <= 57
    ensures RawMax(n) < 0 <==> n in PANIC_ATTEMPTS
    ensures n < 57 ==> RawMax(n) < 0 || RawMax(n) > SECOND
    ensures n == 57 ==> RawMax(n) == 0
  {
    Bounds47(52);
    RawDoubled(52, n - 52);
    Values52(RawMax(n), n - 52);
  }

  lemma {:induction false} WrappedAway(n: nat)
    requires n >= 57
    ensures RawMax(n) == 0
  {
    Bounds52(57);
    if 57 < n <= 64 {
      WrappedAway(n - 1);
      RawStep(n - 1);
    }
  }

  /** The bound, where the shift may have wrapped. */
  lemma LateBound(n: nat)
    requires n >= 38
    ensures RawMax(n) < 0 <==> n in PANIC_ATTEMPTS
    ensures n !in PANIC_ATTEMPTS ==> JitterMax(n) == if n <= 56 then SECOND else 0
  {
    if n <= 42 {
      Bounds37(n);
    } else if n <= 47 {
      Bounds42(n);
    } else if n <= 52 {
      Bounds47(n);
    } else if n <= 56 {
      Bounds52(n);
    } else {
      WrappedAway(n);
    }
  }

  /** What a draw is taken below, for all attempts: 100ms doubled each time, from the fifth on
      one second, and from the 57th on nothing but zero is left. */
  function Span(n: nat): int
    requires n >= 1
  {
    if n <= 4 then Pow2(n - 1) * (100 * MILLISECOND) else if n <= 56 then SECOND else 0
  }

  /** Backing off sleeps the draw, for every attempt, and panics before exactly the listed
      ones. */
  lemma BackoffIsDrawn(draw: Draws, n: nat)
    requires n >= 1
    ensures Backoff(draw, n, None) == if n in PANIC_ATTEMPTS then None else Some(draw(n, Span(n) + 1))
  {
    if n <= 37 {
      CappedBound(n);
    } else {
      LateBound(n);
    }
  }

  /** Without a number of seconds in the header the previous response changes nothing. */
  lemma NoRequestNoDifference(draw: Draws, n: nat, header: string)
    requires n >= 1
    requires ParseInt(header).Some? ==> ParseInt(header).value < 0
    ensures Backoff(draw, n, Some(header)) == Backoff(draw, n, None)
  {
  }

  /** Exactly when backing off panics. */
  lemma BackoffPanicsIff(draw: Draws, n: nat)
    requires n >= 1
    ensures Backoff(draw, n, None).None? <==> n in PANIC_ATTEMPTS
  {
    BackoffIsDrawn(draw, n);
  }

  /** A sleep is never negative, never above one second, nor above 100ms * 2^(n-1). */
  lemma BackoffBounds(draw: Draws, n: nat)
    requires n >= 1 && InRange(draw) && Backoff(draw, n, None).Some?
    ensures 0 <= Backoff(draw, n, None).value <= SECOND
    ensures Backoff(draw, n, None).value <= Pow2(n - 1) * (100 * MILLISECOND)
  {
    PowerRange(n - 1);
    if n <= 37 {
      CappedBound(n);
    }
  }

  // ---- The first final outcome ----

  /** Whether the outcome of attempt n leads to another attempt, budget permitting. */
  predicate Retried(w: World, isGet: bool, n: nat) {
    match w.outcome(n)
    case Failed => true
    case Responded(status, _) => isGet && RetryableStatus(status)
  }

  predicate BackoffPanics(w: World, n: nat) {
    n >= 1 && w.pause(n, None).None?
  }

  /** Attempt n, once it begins, is the last. */
  predicate Final(w: World, isGet: bool, budget: nat, n: nat) {
    BackoffPanics(w, n) || w.cancelled(n) || n == budget || !Retried(w, isGet, n)
  }

  /** The first attempt at or after n that is final. */
  function FirstFinal(w: World, isGet: bool, budget: nat, n: nat): (r: nat)
    requires n <= budget
    ensures n <= r <= budget && Final(w, isGet, budget, r)
    decreases budget - n
  {
    if Final(w, isGet, budget, n) then n else FirstFinal(w, isGet, budget, n + 1)
  }

  function ExitAt(w: World, n: nat): Exit {
    if BackoffPanics(w, n) then Panicked
    else if w.cancelled(n) then ContextError(n)
    else
      match w.outcome(n)
      case Failed => NetworkError(n)
      case Responded(status, _) => Response(n, status)
  }

  /** How a call ends. A negative budget leaves nothing to return. */
  function ExitOf(w: World, isGet: bool, budget: int): Exit {
    if budget < 0 then Nothing else ExitAt(w, FirstFinal(w, isGet, budget, 0))
  }

  // ---- The loop ----

  class Request {
    const verb: string
    var headers: map<string, string>   // by canonical name

    constructor (verb: string, headers: map<string, string>)
      ensures this.verb == verb && this.headers == headers
    {
      this.verb := verb;
      this.headers := headers;
    }

    function Get(name: string): string
      reads this
    {
      if name in headers then headers[name] else ""
    }
  }

  const IDEMPOTENCY_KEY: string := "Idempotency-Key"

  class RetryRoundTripper {
    const maxGET: int
    const maxWrite: int

    constructor (maxGET: int, maxWrite: int)
      ensures this.maxGET == maxGET && this.maxWrite == maxWrite
    {
      this.maxGET := maxGET;
      this.maxWrite := maxWrite;
    }

    method RoundTrip(req: Request, w: World) returns (exit: Exit, log: Log)
      ensures exit == ExitOf(w, req.verb == "GET", (if req.verb == "GET" then maxGET else maxWrite))
      ensures log ==
              LogOf(w, req.verb == "GET", (if req.verb == "GET" then maxGET else maxWrite), req.Get(IDEMPOTENCY_KEY))
      ensures exit.NetworkError? ==> exit.attempt == if req.verb == "GET" then maxGET else maxWrite
      ensures exit.Response? && req.verb == "GET" ==>
                exit.attempt == maxGET || exit.status !in {408, 429, 502, 503, 504}
    {
      EndsOnlyIf(w, req.verb == "GET", if req.verb == "GET" then maxGET else maxWrite);
      var budget := maxGET;
      var writeVerb := false;
      if req.verb != "GET" {
        budget := maxWrite;
        writeVerb := true;
      }
      log := Empty;
      var lastResp: Option<nat> := None;
      ghost var key := req.Get(IDEMPOTENCY_KEY);
      var attempt: nat := 0;
      while attempt <= budget
        invariant budget >= 0 ==>
                    && attempt <= budget
                    && FirstFinal(w, !writeVerb, budget, attempt) == FirstFinal(w, !writeVerb, budget, 0)
        invariant budget < 0 ==> attempt == 0
        invariant log == AfterSends(w, key, attempt)
        invariant lastResp == LastResponse(w, attempt)
        decreases budget - attempt
      {
        if attempt > 0 {
          var panicked;
          panicked, log := BeforeRetry(w, attempt, lastResp, log);
          if panicked {
            return Panicked, log;
          }
        }
        assert log == Lead(w, AfterSends(w, key, attempt), attempt);
        if w.cancelled(attempt) {
          return ContextError(attempt), log;
        }
        log := Then(log, Send(attempt, req.Get(IDEMPOTENCY_KEY)));
        assert log == AfterSends(w, key, attempt + 1);
        var resp := w.outcome(attempt);
        lastResp := if resp.Responded? then Some(attempt) else None;
        if resp.Failed? {
          if writeVerb && attempt < maxWrite {
            attempt := attempt + 1;
            continue;
          }
          if !writeVerb && attempt < maxGET {
            attempt := attempt + 1;
            continue;
          }
          return NetworkError(attempt), log;
        }
        if writeVerb {
          return Response(attempt, resp.status), log;
        }
        if !RetryableStatus(resp.status) || attempt == budget {
          return Response(attempt, resp.status), log;
        }
        attempt := attempt + 1;
      }
      exit := Nothing;
    }

    /** The start of a retry: the previous response is drained and closed, then the
        backoff is slept. */
    method BeforeRetry(w: World, attempt: nat, lastResp: Option<nat>, before: Log)
      returns (panicked: bool, log: Log)
      requires attempt > 0 && lastResp == LastResponse(w, attempt)
      ensures panicked == BackoffPanics(w, attempt)
      ensures log == Lead(w, before, attempt)
    {
      log := before;
      var resp := lastResp;
      if resp.Some? {
        log := Then(log, Drain(resp.value));
        log := Then(log, Close(resp.value));
        resp := None;
      }
      var pause := w.pause(attempt, RetryAfter(w, resp));
      if pause.None? {
        return true, log;
      }
      log := Then(log, Sleep(pause.value));
      panicked := false;
    }
  }

  /** The Retry-After header of the response to an attempt, if there is a response. */
  function RetryAfter(w: World, resp: Option<nat>): Option<string> {
    if resp.None? || w.outcome(resp.value).Failed? then None else Some(w.outcome(resp.value).retryAfter)
  }

  /** The response of the attempt before n, if it got one. */
  function LastResponse(w: World, n: nat): Option<nat> {
    if n > 0 && w.outcome(n - 1).Responded? then Some(n - 1) else None
  }

  // ---- The log a call leaves ----

  /** The log once the response of attempt n, if there is one, is drained and closed. */
  function Settle(w: World, log: Log, n: nat): Log {
    if w.outcome(n).Responded? then Then(Then(log, Drain(n)), Close(n)) else log
  }

  /** The log when attempt n is about to be sent: the previous response is settled, then
      the pause slept. */
  function Lead(w: World, log: Log, n: nat): Log {
    if n == 0 then log
    else
      var settled := Settle(w, log, n - 1);
      if w.pause(n, None).None? then settled else Then(settled, Sleep(w.pause(n, None).value))
  }

  /** The log once attempts 0 to n - 1 have been sent. */
  function AfterSends(w: World, key: string, n: nat): Log {
    if n == 0 then Empty
    else Then(Lead(w, AfterSends(w, key, n - 1), n - 1), Send(n - 1, key))
  }

  /** The log of a whole call. */
  function LogOf(w: World, isGet: bool, budget: int, key: string): Log {
    if budget < 0 then Empty
    else
      var n := FirstFinal(w, isGet, budget, 0);
      if BackoffPanics(w, n) || w.cancelled(n) then Lead(w, AfterSends(w, key, n), n)
      else AfterSends(w, key, n + 1)
  }

  // ---- What the log says ----

  /** The exit is that of the least final attempt. */
  lemma {:induction false} FirstFinalIsLeast(w: World, isGet: bool, budget: nat, n: nat, k: nat)
    requires n <= k <= budget && Final(w, isGet, budget, k)
    ensures FirstFinal(w, isGet, budget, n) <= k
    decreases k - n
  {
    if n < k {
      FirstFinalIsLeast(w, isGet, budget, n + 1, k);
    }
  }

  /** The loop runs out only on a negative budget: otherwise it ends in a return. */
  lemma NothingIffNegativeBudget(w: World, isGet: bool, budget: int)
    ensures ExitOf(w, isGet, budget) == Nothing <==> budget < 0
  {
  }

  /** Whatever was sent again had failed, or was a GET with a retryable status: no other
      verb is sent again once a response has come. */
  lemma {:induction false} ResentOnlyIf(w: World, isGet: bool, budget: nat, n: nat, k: nat)
    requires n <= budget && n <= k < FirstFinal(w, isGet, budget, n)
    ensures w.outcome(k).Failed? || (isGet && RetryableStatus(w.outcome(k).status))
    ensures !w.cancelled(k)
    decreases k - n
  {
    if n < k {
      ResentOnlyIf(w, isGet, budget, n + 1, k);
    }
  }

  /** The world in which no response asks for a delay. */
  function Unrequested(w: World): World {
    World((n: nat) => if w.outcome(n).Failed? then Failed else Responded(w.outcome(n).status, ""),
          w.cancelled, (n: nat, prev: Option<string>) => w.pause(n, None))
  }

  lemma {:induction false} FirstFinalUnrequested(w: World, isGet: bool, budget: nat, n: nat)
    requires n <= budget
    ensures FirstFinal(Unrequested(w), isGet, budget, n) == FirstFinal(w, isGet, budget, n)
    decreases budget - n
  {
    assert Final(Unrequested(w), isGet, budget, n) == Final(w, isGet, budget, n);
    if !Final(w, isGet, budget, n) {
      FirstFinalUnrequested(w, isGet, budget, n + 1);
    }
  }

  lemma {:induction false} SendsUnrequested(w: World, key: string, n: nat)
    ensures AfterSends(Unrequested(w), key, n) == AfterSends(w, key, n)
  {
    if n > 0 {
      SendsUnrequested(w, key, n - 1);
      LeadUnrequested(w, AfterSends(w, key, n - 1), n - 1);
    }
  }

  lemma LeadUnrequested(w: World, log: Log, n: nat)
    ensures Lead(Unrequested(w), log, n) == Lead(w, log, n)
  {
    if n > 0 {
      assert Settle(Unrequested(w), log, n - 1) == Settle(w, log, n - 1);
    }
  }

  /** Retry-After is never honoured: whatever the responses ask for, a call ends the same way
      with the same log. */
  lemma RetryAfterIsIgnored(w: World, isGet: bool, budget: int, key: string)
    ensures ExitOf(Unrequested(w), isGet, budget) == ExitOf(w, isGet, budget)
    ensures LogOf(Unrequested(w), isGet, budget, key) == LogOf(w, isGet, budget, key)
  {
    if budget >= 0 {
      var n := FirstFinal(w, isGet, budget, 0);
      FirstFinalUnrequested(w, isGet, budget, 0);
      SendsUnrequested(w, key, n);
      SendsUnrequested(w, key, n + 1);
      LeadUnrequested(w, AfterSends(w, key, n), n);
    }
  }

  /** Though backoff would honour a request of up to a second, had it been passed one. */
  lemma BackoffWouldHonour(draw: Draws, n: nat, secs: int)
    requires n >= 1 && 0 <= secs <= MAX_INT64 / SECOND
    ensures Backoff(draw, n, Some(FormatInt(secs))) == Some(if secs == 0 then 0 else SECOND)
  {
    ParseFormat(secs);
    assert FormatInt(secs) != "";
  }

  /** The one response that may be unsettled at a point of the log. */
  datatype Body = Settled | Open(attempt: nat) | Drained(attempt: nat)

  /** What a log amounts to: the attempts sent, in order; the state of the response
      bodies, None once their protocol is broken; the time slept. */
  datatype Summary = Summary(sent: seq<nat>, body: Option<Body>, slept: int)

  /** The protocol of response bodies: only an open response is drained, only a drained
      one closed, and nothing is sent or slept through while one is unsettled. */
  function Follow(w: World, st: Body, e: Event): Option<Body> {
    match e
    case Send(n, _) =>
      if !st.Settled? then None else Some(if w.outcome(n).Responded? then Open(n) else Settled)
    case Drain(n) => if st == Open(n) then Some(Drained(n)) else None
    case Close(n) => if st == Drained(n) then Some(Settled) else None
    case Sleep(_) => if st.Settled? then Some(Settled) else None
  }

  function Add(w: World, sum: Summary, e: Event): Summary {
    Summary(
      if e.Send? then sum.sent + [e.attempt] else sum.sent,
      if sum.body.None? then None else Follow(w, sum.body.value, e),
      if e.Sleep? then sum.slept + e.duration else sum.slept)
  }

  function Summarise(w: World, log: Log): Summary {
    match log
    case Empty => Summary([], Some(Settled), 0)
    case Then(before, last) => Add(w, Summarise(w, before), last)
  }

  function FirstNats(n: nat): seq<nat> {
    seq(n, i requires 0 <= i < n => i)
  }

  /** The time slept before attempts 1 to n. */
  function PauseTotal(w: World, n: nat): int {
    if n == 0 then 0
    else PauseTotal(w, n - 1) + if w.pause(n, None).Some? then w.pause(n, None).value else 0
  }

  function BodyOf(w: World, n: nat): Body {
    if n > 0 && w.outcome(n - 1).Responded? then Open(n - 1) else Settled
  }

  function PauseOf(w: World, n: nat): int {
    if n > 0 && w.pause(n, None).Some? then w.pause(n, None).value else 0
  }

  lemma SummaryOfLead(w: World, log: Log, n: nat)
    requires Summarise(w, log).body == Some(BodyOf(w, n))
    ensures var sum := Summarise(w, log);
            Summarise(w, Lead(w, log, n)) == Summary(sum.sent, Some(Settled), sum.slept + PauseOf(w, n))
  {
    if n > 0 {
      var settled := Settle(w, log, n - 1);
      if w.outcome(n - 1).Responded? {
        assert Summarise(w, Then(log, Drain(n - 1))).body == Some(Drained(n - 1));
      }
      assert Summarise(w, settled) == Summarise(w, log).(body := Some(Settled));
    }
  }

  /** The first n sends: all attempts below n in order, the last response still open. */
  lemma {:induction false} SummaryOfSends(w: World, key: string, n: nat)
    ensures Summarise(w, AfterSends(w, key, n)) ==
            Summary(FirstNats(n), Some(BodyOf(w, n)), PauseTotal(w, if n == 0 then 0 else n - 1))
  {
    if n > 0 {
      SummaryOfSends(w, key, n - 1);
      SummaryOfLead(w, AfterSends(w, key, n - 1), n - 1);
      assert FirstNats(n - 1) + [n - 1] == FirstNats(n);
    }
  }

  /** The whole call. Attempts are sent once each and in order, at most budget + 1 of
      them; every response received has been drained and closed, once and before the next
      send or the exit, save the one returned, which is open; the sleeps are the pauses. */
  lemma CallSummary(w: World, isGet: bool, budget: nat, key: string)
    ensures var n := FirstFinal(w, isGet, budget, 0);
            var exit := ExitOf(w, isGet, budget);
            var sent := if exit.Panicked? || exit.ContextError? then n else n + 1;
            && sent <= budget + 1
            && Summarise(w, LogOf(w, isGet, budget, key)) ==
               Summary(FirstNats(sent), Some(if exit.Response? then Open(n) else Settled), PauseTotal(w, n))
  {
    var n := FirstFinal(w, isGet, budget, 0);
    SummaryOfSends(w, key, n);
    SummaryOfSends(w, key, n + 1);
    SummaryOfLead(w, AfterSends(w, key, n), n);
  }

  /** Every send carries the one key. */
  predicate OneKey(log: Log, key: string) {
    log == Empty || (OneKey(log.before, key) && (log.last.Send? ==> log.last.key == key))
  }

  lemma LeadKeepsKey(w: World, log: Log, key: string, n: nat)
    requires OneKey(log, key)
    ensures OneKey(Lead(w, log, n), key)
  {
    if n > 0 {
      assert OneKey(Then(log, Drain(n - 1)), key);
      assert OneKey(Settle(w, log, n - 1), key);
    }
  }

  lemma {:induction false} AfterSendsOneKey(w: World, key: string, n: nat)
    ensures OneKey(AfterSends(w, key, n), key)
  {
    if n > 0 {
      AfterSendsOneKey(w, key, n - 1);
      LeadKeepsKey(w, AfterSends(w, key, n - 1), key, n - 1);
    }
  }

  lemma SendsShareKey(w: World, isGet: bool, budget: int, key: string)
    ensures OneKey(LogOf(w, isGet, budget, key), key)
  {
    if budget >= 0 {
      var n := FirstFinal(w, isGet, budget, 0);
      AfterSendsOneKey(w, key, n);
      AfterSendsOneKey(w, key, n + 1);
      LeadKeepsKey(w, AfterSends(w, key, n), key, n);
    }
  }

  // ---- The call, from the outcomes alone ----

  /** Attempt n is reached: no earlier one panicked or was cancelled, and each failed or was
      a GET with one of the retryable statuses. */
  ghost predicate Reaches(w: World, isGet: bool, n: nat) {
    forall k: nat :: k < n ==>
      && (k >= 1 ==> w.pause(k, None).Some?) && !w.cancelled(k)
      && (w.outcome(k).Failed? || (isGet && w.outcome(k).status in {408, 429, 502, 503, 504}))
  }

  lemma {:induction false} FirstFinalIsReached(w: World, isGet: bool, budget: nat, n: nat)
    requires n <= budget && Reaches(w, isGet, n)
    ensures Reaches(w, isGet, FirstFinal(w, isGet, budget, n))
    decreases budget - n
  {
    if !Final(w, isGet, budget, n) {
      FirstFinalIsReached(w, isGet, budget, n + 1);
    }
  }

  /** The durations slept, in order. */
  function SleepsOf(log: Log): seq<int> {
    match log
    case Empty => []
    case Then(before, last) => SleepsOf(before) + if last.Sleep? then [last.duration] else []
  }

  /** The sleeps are the pauses before attempts 1 to m. */
  predicate ArePauses(w: World, sleeps: seq<int>, m: int) {
    |sleeps| == m && forall k :: 0 <= k < m ==> w.pause(k + 1, None) == Some(sleeps[k])
  }

  lemma SleepsOfLead(w: World, log: Log, n: nat)
    ensures SleepsOf(Lead(w, log, n)) ==
            SleepsOf(log) + if n > 0 && w.pause(n, None).Some? then [w.pause(n, None).value] else []
  {
    if n > 0 && w.outcome(n - 1).Responded? {
      assert SleepsOf(Then(log, Drain(n - 1))) == SleepsOf(log);
      assert SleepsOf(Settle(w, log, n - 1)) == SleepsOf(log);
    }
  }

  lemma {:induction false} SleepsOfSends(w: World, isGet: bool, key: string, n: nat)
    requires Reaches(w, isGet, n)
    ensures ArePauses(w, SleepsOf(AfterSends(w, key, n)), if n == 0 then 0 else n - 1)
  {
    if n > 0 {
      SleepsOfSends(w, isGet, key, n - 1);
      SleepsOfLead(w, AfterSends(w, key, n - 1), n - 1);
    }
  }

  lemma SleepsOfCall(w: World, isGet: bool, budget: nat, key: string, n: nat)
    requires n == FirstFinal(w, isGet, budget, 0)
    ensures var exit := ExitOf(w, isGet, budget);
      ArePauses(w, SleepsOf(LogOf(w, isGet, budget, key)), if exit.Panicked? then n - 1 else n)
  {
    FirstFinalIsReached(w, isGet, budget, 0);
    SleepsOfSends(w, isGet, key, n);
    SleepsOfLead(w, AfterSends(w, key, n), n);
  }

  /** How every call goes. It reaches some attempt and ends there: before the send if backing
      off panics or the context is done; with an error only if the budget is spent; with a
      response only if the budget is spent, the verb is not GET, or the status is not
      retryable. Attempts are sent once each and in order; all responses but the one returned
      have been drained and closed; the sleeps are the pauses before the attempts, in order. */
  lemma EveryCall(w: World, isGet: bool, budget: nat, key: string) returns (n: nat)
    ensures n <= budget && Reaches(w, isGet, n)
    ensures var exit := ExitOf(w, isGet, budget);
      if n >= 1 && w.pause(n, None).None? then exit == Panicked
      else if w.cancelled(n) then exit == ContextError(n)
      else if w.outcome(n).Failed? then n == budget && exit == NetworkError(n)
      else
        && (n == budget || !isGet || w.outcome(n).status !in {408, 429, 502, 503, 504})
        && exit == Response(n, w.outcome(n).status)
    ensures var exit := ExitOf(w, isGet, budget);
      var sent := if exit.Panicked? || exit.ContextError? then n else n + 1;
      Summarise(w, LogOf(w, isGet, budget, key)) ==
      Summary(FirstNats(sent), Some(if exit.Response? then Open(n) else Settled), PauseTotal(w, n))
    ensures var exit := ExitOf(w, isGet, budget);
      ArePauses(w, SleepsOf(LogOf(w, isGet, budget, key)), if exit.Panicked? then n - 1 else n)
  {
    n := FirstFinal(w, isGet, budget, 0);
    FirstFinalIsReached(w, isGet, budget, 0);
    CallSummary(w, isGet, budget, key);
    SleepsOfCall(w, isGet, budget, key, n);
  }

  /** An error is returned only once the budget is spent, a retryable status only then or for
      a verb other than GET, and the context's error only if the context is done. */
  lemma EndsOnlyIf(w: World, isGet: bool, budget: int)
    ensures var exit := ExitOf(w, isGet, budget);
      && (exit.NetworkError? ==> exit.attempt == budget)
      && (exit.Response? ==> !isGet || exit.attempt == budget || exit.status !in {408, 429, 502, 503, 504})
      && (exit.ContextError? ==> w.cancelled(exit.attempt))
  {
    if budget >= 0 {
      var n := EveryCall(w, isGet, budget, "");
    }
  }

  // ---- Sleeping ----

  /** The most that n retries can sleep. */
  function SleepBound(n: nat): int {
    if n <= 4 then 100 * MILLISECOND * (Pow2(n) - 1)
    else 1500 * MILLISECOND + SECOND * (n - 4)
  }

  /** Total sleep against the number of retries. */
  lemma {:induction false} SleepIsBounded(w: World, draw: Draws, n: nat)
    requires PausesByBackoff(w, draw)
    ensures 0 <= PauseTotal(w, n) <= SleepBound(n)
  {
    if n > 0 {
      SleepIsBounded(w, draw, n - 1);
      assert w.pause(n, None) == Backoff(draw, n, None);
      BoundStep(draw, n);
    }
  }

  lemma BoundStep(draw: Draws, n: nat)
    requires InRange(draw) && n >= 1
    ensures Backoff(draw, n, None).Some? ==> 0 <= Backoff(draw, n, None).value <= SleepBound(n) - SleepBound(n - 1)
    ensures SleepBound(n - 1) <= SleepBound(n)
  {
    Powers();
    PowerRange(n - 1);
    if Backoff(draw, n, None).Some? {
      BackoffBounds(draw, n);
    }
  }

  const SHIPPED_GET: nat := 2
  const SHIPPED_WRITE: nat := 1

  /** With the shipped budgets a call sleeps at most 300ms and never panics. */
  lemma ShippedBudgets(w: World, draw: Draws, isGet: bool, key: string)
    requires PausesByBackoff(w, draw)
    ensures var budget := if isGet then SHIPPED_GET else SHIPPED_WRITE;
            && Summarise(w, LogOf(w, isGet, budget, key)).slept <= 300 * MILLISECOND
            && ExitOf(w, isGet, budget) != Panicked
  {
    var budget := if isGet then SHIPPED_GET else SHIPPED_WRITE;
    var n := FirstFinal(w, isGet, budget, 0);
    CallSummary(w, isGet, budget, key);
    SleepIsBounded(w, draw, n);
    assert Pow2(1) == 2 && Pow2(2) == 4;
    if n >= 1 {
      BackoffPanicsIff(draw, n);
    }
  }

  // ---- The Idempotency-Key ----

  const USER_AGENT: string := "User-Agent"

  predicate IsMutating(verb: string) {
    verb in {"POST", "PUT", "PATCH", "DELETE"}
  }

  class DecoratedRT {
    const base: RetryRoundTripper
    const userAgent: string

    constructor (base: RetryRoundTripper, userAgent: string)
      ensures this.base == base && this.userAgent == userAgent
    {
      this.base := base;
      this.userAgent := userAgent;
    }

    /** One call; newId is the id it would generate. All sends of a mutating call carry
        one key: the caller's, or else the generated one. No other verb gets a key. */
    method RoundTrip(req: Request, newId: string, w: World) returns (exit: Exit, log: Log)
      modifies req
      ensures OneKey(log, req.Get(IDEMPOTENCY_KEY))
      ensures req.verb in {"POST", "PUT", "PATCH", "DELETE"} && newId != "" ==> req.Get(IDEMPOTENCY_KEY) != ""
      ensures req.Get(IDEMPOTENCY_KEY) ==
              if req.verb in {"POST", "PUT", "PATCH", "DELETE"} && old(req.Get(IDEMPOTENCY_KEY)) == "" then newId
              else old(req.Get(IDEMPOTENCY_KEY))
      ensures req.Get(USER_AGENT) == if userAgent != "" then userAgent else old(req.Get(USER_AGENT))
      ensures forall h :: h != USER_AGENT && h != IDEMPOTENCY_KEY ==>
                (h in req.headers <==> h in old(req.headers)) && req.Get(h) == old(req.Get(h))
      ensures exit == ExitOf(w, req.verb == "GET", if req.verb == "GET" then base.maxGET else base.maxWrite)
      ensures log ==
              LogOf(w, req.verb == "GET", if req.verb == "GET" then base.maxGET else base.maxWrite,
                    req.Get(IDEMPOTENCY_KEY))
    {
      if userAgent != "" {
        req.headers := req.headers[USER_AGENT := userAgent];
      }
      if IsMutating(req.verb) && req.Get(IDEMPOTENCY_KEY) == "" {
        req.headers := req.headers[IDEMPOTENCY_KEY := newId];
      }
      assert USER_AGENT[0] != IDEMPOTENCY_KEY[0];
      exit, log := base.RoundTrip(req, w);
      SendsShareKey(w, req.verb == "GET", if req.verb == "GET" then base.maxGET else base.maxWrite,
                    req.Get(IDEMPOTENCY_KEY));
    }
  }
}
