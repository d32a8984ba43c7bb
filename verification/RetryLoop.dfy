/**
 The retry loops of the compound-failure load test (adding to the cart and
 creating an order) and the counters they write. The server's replies are an
 arbitrary function of the attempt; the two loops differ only in the status
 codes they accept and in the base delay. Delays are in seconds.
 */
module RetryLoop {
  datatype Counters = Counters(
    totalRequests: nat,
    successful: nat,
    failed: nat,
    retryAttempts: nat,
    retrySuccess: nat,
    retryExhausted: nat,
    rateLimitHits: nat,
    rateLimitDuringRetry: nat,
    idempotencyKeys: nat,
    duplicates: nat,
    otherErrors: nat)

  const NOTHING := Counters(0, 0, 0, 0, 0, 0, 0, 0, 0, 0, 0)

  function Plus(a: Counters, b: Counters): Counters {
    Counters(a.totalRequests + b.totalRequests, a.successful + b.successful, a.failed + b.failed,
             a.retryAttempts + b.retryAttempts, a.retrySuccess + b.retrySuccess, a.retryExhausted + b.retryExhausted,
             a.rateLimitHits + b.rateLimitHits, a.rateLimitDuringRetry + b.rateLimitDuringRetry,
             a.idempotencyKeys + b.idempotencyKeys, a.duplicates + b.duplicates, a.otherErrors + b.otherErrors)
  }

  /** A call: which statuses count as success, what the server answers, how often to try, how long to back off. */
  datatype Call = Call(accept: set<int>, reply: nat -> int, maxRetries: nat, delay: real)

  function CartCall(reply: nat -> int): Call { Call({200, 201}, reply, 3, 0.5) }
  function OrderCall(reply: nat -> int): Call { Call({200, 201, 202}, reply, 3, 1.0) }

  datatype Verdict = Accepted | Duplicate | Unavailable | RateLimited | Broken

  function Judge(c: Call, attempt: nat): Verdict {
    var status := c.reply(attempt);
    if status in c.accept then Accepted
    else if status == 409 then Duplicate
    else if status == 503 then Unavailable
    else if status == 429 then RateLimited
    else Broken
  }

  /** The loop goes on exactly after a 503 or a 429. */
  predicate Retryable(c: Call, attempt: nat) { Judge(c, attempt).Unavailable? || Judge(c, attempt).RateLimited? }

  function Pow2(n: nat): nat { if n == 0 then 1 else 2 * Pow2(n - 1) }

  function LimitedCount(c: Call, n: nat): nat {
    if n == 0 then 0 else LimitedCount(c, n - 1) + B(Judge(c, n - 1).RateLimited?)
  }

  /** The call stops after r attempts: all but the last asked for a retry, and the last did not or was the final one allowed. */
  predicate StopsAfter(c: Call, r: nat) {
    && r <= c.maxRetries
    && (forall i :: 0 <= i < r - 1 ==> Retryable(c, i))
    && (r < c.maxRetries ==> r > 0 && !Retryable(c, r - 1))
  }

  function B(b: bool): nat { if b then 1 else 0 }

  /** What a call that stops after r attempts adds to the counters. */
  function Effect(c: Call, r: nat): Counters {
    if r == 0 then NOTHING else EffectOf(Judge(c, r - 1), r, c.maxRetries, LimitedCount(c, r))
  }

  /** The same from the last verdict and the number of rate-limited attempts. */
  function EffectOf(last: Verdict, r: nat, maxRetries: nat, limited: nat): Counters
    requires r > 0
  {
    match last
    case Accepted => Counters(r, 1, r - 1, if r > 1 then r else 0, B(r > 1), 0, limited, limited, 1, 0, 0)
    case Duplicate => Counters(r, 1, r - 1, r - 1, 0, 0, limited, limited, 1, 1, 0)
    case Unavailable => Counters(r, 0, r, r, 0, B(r == maxRetries), limited, limited, 0, 0, 0)
    case RateLimited => Counters(r, 0, r, r, 0, 0, limited, limited, 0, 0, 0)
    case Broken => Counters(r, 0, r, r - 1, 0, 0, limited, limited, 0, 0, 1)
  }

  /** The nap after an attempt, counted from 0. */
  function Nap(delay: real, attempt: nat): real { delay * Pow2(attempt) as real }

  /** Exponential backoff: delay, 2 * delay, 4 * delay, ... */
  ghost predicate Exponential(delay: real, naps: seq<real>) {
    forall i :: 0 <= i < |naps| ==> naps[i] == Nap(delay, i)
  }

  function Sum(naps: seq<real>): real {
    if naps == [] then 0.0 else Sum(naps[..|naps| - 1]) + naps[|naps| - 1]
  }

  /** delay + 2 * delay + ... over n naps, in closed form. */
  function Geometric(delay: real, n: nat): real { delay * (Pow2(n) - 1) as real }

  lemma {:induction false} BackoffClosedForm(delay: real, naps: seq<real>)
    requires Exponential(delay, naps)
    ensures Sum(naps) == Geometric(delay, |naps|)
  {
    if naps == [] {
      assert delay * 0.0 == 0.0;
    } else {
      BackoffClosedForm(delay, naps[..|naps| - 1]);
      var p := Pow2(|naps| - 1) as real;
      assert Sum(naps) == delay * (p - 1.0) + delay * p == delay * (2.0 * p - 1.0);
      assert (Pow2(|naps|) - 1) as real == 2.0 * p - 1.0;
    }
  }

  /** Where a call stops is determined by the replies. */
  lemma StopUnique(c: Call, r: nat, r': nat)
    requires StopsAfter(c, r) && StopsAfter(c, r')
    ensures r == r'
  {
  }

  /** Where a call stops, in terms of the statuses: after the first that is accepted or is neither 503 nor 429, or at the limit. */
  lemma StopsExactly(c: Call, r: nat)
    ensures StopsAfter(c, r) <==>
      && r <= c.maxRetries
      && (forall i :: 0 <= i < r - 1 ==> c.reply(i) !in c.accept && (c.reply(i) == 503 || c.reply(i) == 429))
      && (r < c.maxRetries ==> r > 0 && (c.reply(r - 1) in c.accept || (c.reply(r - 1) != 503 && c.reply(r - 1) != 429)))
  {
    forall i: nat ensures Retryable(c, i) <==> c.reply(i) !in c.accept && (c.reply(i) == 503 || c.reply(i) == 429) { RetryableIs(c, i); }
  }

  lemma RetryableIs(c: Call, i: nat)
    ensures Retryable(c, i) <==> c.reply(i) !in c.accept && (c.reply(i) == 503 || c.reply(i) == 429)
  {
  }

  /** How many of the first n replies were 429, where that is not accepted. */
  function Count429(c: Call, n: nat): nat {
    if n == 0 then 0 else Count429(c, n - 1) + if c.reply(n - 1) == 429 && 429 !in c.accept then 1 else 0
  }

  lemma {:induction false} LimitedIs429(c: Call, n: nat)
    ensures LimitedCount(c, n) == Count429(c, n)
  {
    if n > 0 { LimitedIs429(c, n - 1); }
  }

  /** Every counter a call moves, from the statuses alone. */
  lemma {:induction false} EffectByStatus(c: Call, r: nat)
    requires 0 < r <= c.maxRetries
    ensures var e, last := Effect(c, r), c.reply(r - 1); var taken := last in c.accept;
      && e.totalRequests == r && e.successful == B(taken || last == 409) && e.failed == r - B(taken || last == 409)
      && e.idempotencyKeys == B(taken || last == 409) && e.duplicates == B(!taken && last == 409)
      && e.rateLimitHits == e.rateLimitDuringRetry == Count429(c, r)
      && e.retrySuccess == B(taken && r > 1)
      && e.retryExhausted == B(!taken && last == 503 && r == c.maxRetries)
      && e.otherErrors == B(!taken && last != 409 && last != 503 && last != 429)
      && e.retryAttempts == r - 1 + B((taken && r > 1) || (!taken && (last == 503 || last == 429)))
  {
    LimitedIs429(c, r);
  }

  /** What one attempt adds to the counters. */
  function Delta(verdict: Verdict, attempt: nat, maxRetries: nat): Counters {
    match verdict
    case Accepted => Counters(1, 1, 0, B(attempt > 0), B(attempt > 0), 0, 0, 0, 1, 0, 0)
    case Duplicate => Counters(1, 1, 0, 0, 0, 0, 0, 0, 1, 1, 0)
    case Unavailable => Counters(1, 0, 1, 1, 0, B(attempt + 1 == maxRetries), 0, 0, 0, 0, 0)
    case RateLimited => Counters(1, 0, 1, 1, 0, 0, 1, 1, 0, 0, 0)
    case Broken => Counters(1, 0, 1, 0, 0, 0, 0, 0, 0, 0, 1)
  }

  /** While the loop goes on, every attempt was a failure and a retry. */
  lemma {:induction false} EffectSoFar(c: Call, r: nat)
    requires r < c.maxRetries && (r > 0 ==> Retryable(c, r - 1))
    ensures var limited := LimitedCount(c, r); Effect(c, r) == Counters(r, 0, r, r, 0, 0, limited, limited, 0, 0, 0)
  {
    if r == 0 { assert LimitedCount(c, 0) == 0; }
  }

  lemma {:induction false} EffectGrows(c: Call, r: nat)
    requires r < c.maxRetries && (r > 0 ==> Retryable(c, r - 1))
    ensures Plus(Effect(c, r), Delta(Judge(c, r), r, c.maxRetries)) == Effect(c, r + 1)
  {
    EffectSoFar(c, r);
    EffectNext(c, r);
    OneMore(Judge(c, r), r, c.maxRetries, LimitedCount(c, r), Effect(c, r), Effect(c, r + 1));
  }

  lemma {:induction false} EffectNext(c: Call, r: nat)
    ensures Effect(c, r + 1) == EffectOf(Judge(c, r), r + 1, c.maxRetries, LimitedCount(c, r) + B(Judge(c, r).RateLimited?))
  {
    assert r + 1 - 1 == r;
  }

  lemma OneMore(verdict: Verdict, r: nat, maxRetries: nat, limited: nat, before: Counters, after: Counters)
    requires before == Counters(r, 0, r, r, 0, 0, limited, limited, 0, 0, 0)
    requires after == EffectOf(verdict, r + 1, maxRetries, limited + B(verdict.RateLimited?))
    ensures Plus(before, Delta(verdict, r, maxRetries)) == after
  {
  }

  lemma {:induction false} AttemptAdds(before: Counters, c: Call, r: nat)
    requires r < c.maxRetries && (r > 0 ==> Retryable(c, r - 1))
    ensures Plus(Plus(before, Effect(c, r)), Delta(Judge(c, r), r, c.maxRetries)) == Plus(before, Effect(c, r + 1))
  {
    EffectGrows(c, r);
    PlusAssociative(before, Effect(c, r), Delta(Judge(c, r), r, c.maxRetries));
  }

  lemma {:induction false} NapAdds(delay: real, naps: seq<real>)
    requires Exponential(delay, naps)
    ensures Exponential(delay, naps + [Nap(delay, |naps|)]) && naps + [] == naps
  {
  }

  lemma PlusAssociative(a: Counters, b: Counters, c: Counters)
    ensures Plus(Plus(a, b), c) == Plus(a, Plus(b, c))
  {
  }

  // ----- the metrics object and the loop

  class Metrics {
    var counters: Counters

    constructor ()
      ensures counters == NOTHING
    {
      counters := NOTHING;
    }

    method RecordRequest(success: bool)
      modifies this
      ensures counters == old(counters).(
        totalRequests := old(counters).totalRequests + 1,
        successful := old(counters).successful + B(success),
        failed := old(counters).failed + B(!success))
    {
      counters := counters.(totalRequests := counters.totalRequests + 1);
      if success {
        counters := counters.(successful := counters.successful + 1);
      } else {
        counters := counters.(failed := counters.failed + 1);
      }
    }

    method RecordRetry(success: bool, exhausted: bool, rateLimited: bool)
      modifies this
      ensures counters == old(counters).(
        retryAttempts := old(counters).retryAttempts + 1,
        retrySuccess := old(counters).retrySuccess + B(success),
        retryExhausted := old(counters).retryExhausted + B(exhausted),
        rateLimitDuringRetry := old(counters).rateLimitDuringRetry + B(rateLimited))
    {
      counters := counters.(retryAttempts := counters.retryAttempts + 1);
      if success { counters := counters.(retrySuccess := counters.retrySuccess + 1); }
      if exhausted { counters := counters.(retryExhausted := counters.retryExhausted + 1); }
      if rateLimited { counters := counters.(rateLimitDuringRetry := counters.rateLimitDuringRetry + 1); }
    }

    method RecordIdempotency(duplicate: bool)
      modifies this
      ensures counters == old(counters).(
        idempotencyKeys := old(counters).idempotencyKeys + 1,
        duplicates := old(counters).duplicates + B(duplicate))
    {
      counters := counters.(idempotencyKeys := counters.idempotencyKeys + 1);
      if duplicate { counters := counters.(duplicates := counters.duplicates + 1); }
    }

    /** One attempt: whether the loop goes on, and the nap it takes before going on. */
    method Attempt(c: Call, attempt: nat) returns (again: bool, naps: seq<real>)
      requires attempt < c.maxRetries
      modifies this
      ensures counters == Plus(old(counters), Delta(Judge(c, attempt), attempt, c.maxRetries))
      ensures again == Retryable(c, attempt)
      ensures naps == if again && attempt < c.maxRetries - 1 then [Nap(c.delay, attempt)] else []
    {
      again, naps := false, [];
      var status := c.reply(attempt);
      if status in c.accept {
        RecordRequest(true);
        RecordIdempotency(false);
        if attempt > 0 { RecordRetry(true, false, false); }
      } else if status == 409 {
        RecordRequest(true);
        RecordIdempotency(true);
      } else if status == 503 {
        RecordRequest(false);
        again := true;
        if attempt < c.maxRetries - 1 {
          RecordRetry(false, false, false);
          naps := [Nap(c.delay, attempt)];
        } else {
          RecordRetry(false, true, false);
        }
      } else if status == 429 {
        RecordRequest(false);
        counters := counters.(rateLimitHits := counters.rateLimitHits + 1);
        RecordRetry(false, false, true);
        again := true;
        if attempt < c.maxRetries - 1 { naps := [Nap(c.delay, attempt)]; }
      } else {
        RecordRequest(false);
        counters := counters.(otherErrors := counters.otherErrors + 1);
      }
    }

    /** The loop: returns the number of requests sent and the naps taken between them. */
    method CallWithRetry(c: Call) returns (requests: nat, naps: seq<real>)
      modifies this
      ensures StopsAfter(c, requests)
      ensures counters == Plus(old(counters), Effect(c, requests))
      ensures Exponential(c.delay, naps) && |naps| == if requests == 0 then 0 else requests - 1
    {
      requests, naps := 0, [];
      for attempt := 0 to c.maxRetries
        invariant requests == attempt
        invariant forall i :: 0 <= i < attempt ==> Retryable(c, i)
        invariant counters == Plus(old(counters), Effect(c, attempt))
        invariant Exponential(c.delay, naps)
        invariant |naps| == if 0 < attempt == c.maxRetries then attempt - 1 else attempt
      {
        requests := attempt + 1;
        var again, nap := Attempt(c, attempt);
        AttemptAdds(old(counters), c, attempt);
        NapAdds(c.delay, naps);
        naps := naps + nap;
        if !again { return; }
      }
    }
  }

  // ----- bounds

  lemma {:induction false} LimitedCountBound(c: Call, n: nat)
    ensures LimitedCount(c, n) <= n
  {
    if n > 0 { LimitedCountBound(c, n - 1); }
  }

  /** Bounds of one call, for every reply sequence and every retry limit. */
  lemma CallBounds(c: Call, r: nat)
    requires StopsAfter(c, r)
    ensures var e := Effect(c, r);
      && e.totalRequests <= c.maxRetries
      && e.totalRequests == e.successful + e.failed
      && e.retryAttempts <= e.totalRequests <= e.retryAttempts + 1
      && e.retrySuccess + e.retryExhausted + e.rateLimitDuringRetry <= e.retryAttempts
      && e.duplicates <= e.idempotencyKeys == e.successful <= 1
      && (e.retryExhausted > 0 ==> r == c.maxRetries)
  {
    if r > 0 { LimitedCountBound(c, r - 1); }
  }

  /** Total backoff of r requests: exact, and bounded by any retry limit n that allowed them. */
  lemma {:induction false} BackoffBound(delay: real, naps: seq<real>, r: nat, n: nat)
    requires 0 < r <= n && Exponential(delay, naps) && |naps| == r - 1
    ensures Sum(naps) == Geometric(delay, r - 1)
    ensures delay >= 0.0 ==> 0.0 <= Sum(naps) <= Geometric(delay, n - 1)
  {
    BackoffClosedForm(delay, naps);
    if delay >= 0.0 { GeometricMonotone(delay, r - 1, n - 1); }
  }

  /** The two loops of the load test send at most three requests and sleep at most three times their delay: 1.5 and 3 seconds. */
  lemma {:induction false} LoadTestBackoff(reply: nat -> int, c: Call, r: nat, naps: seq<real>)
    requires (c == CartCall(reply) || c == OrderCall(reply)) && StopsAfter(c, r)
    requires Exponential(c.delay, naps) && |naps| == r - 1
    ensures 1 <= r <= 3 && 0.0 <= Sum(naps) <= 3.0 * c.delay
  {
    BackoffBound(c.delay, naps, r, 3);
    assert Pow2(1) == 2 && Pow2(2) == 4;
  }

  lemma {:induction false} GeometricMonotone(delay: real, a: nat, b: nat)
    requires delay >= 0.0 && a <= b
    ensures 0.0 <= Geometric(delay, a) <= Geometric(delay, b)
  {
    Pow2Monotone(a, b);
    ScaleMonotone(delay, (Pow2(a) - 1) as real, (Pow2(b) - 1) as real, Geometric(delay, a), Geometric(delay, b));
  }

  lemma ScaleMonotone(d: real, a: real, b: real, da: real, db: real)
    requires d >= 0.0 && 0.0 <= a <= b && da == d * a && db == d * b
    ensures 0.0 <= da <= db
  {
  }

  lemma {:induction false} Pow2Monotone(a: nat, b: nat)
    requires a <= b
    ensures 1 <= Pow2(a) <= Pow2(b)
  {
    if b > 0 {
      if a < b { Pow2Monotone(a, b - 1); } else { Pow2Monotone(a - 1, b - 1); }
    }
  }

  /** A finished call together with where it stopped. */
  datatype Ran = Ran(call: Call, requests: nat)

  function Totals(calls: seq<Ran>): Counters {
    if calls == [] then NOTHING else Plus(Totals(calls[..|calls| - 1]), Effect(calls[|calls| - 1].call, calls[|calls| - 1].requests))
  }

  function Allowed(calls: seq<Ran>): nat {
    if calls == [] then 0 else Allowed(calls[..|calls| - 1]) + calls[|calls| - 1].call.maxRetries
  }

  /** What any completed calls add up to: outcomes never outnumber retries, nor retries requests. */
  lemma {:induction false} RunBounds(calls: seq<Ran>)
    requires forall i :: 0 <= i < |calls| ==> StopsAfter(calls[i].call, calls[i].requests)
    ensures var t := Totals(calls);
      && t.totalRequests == t.successful + t.failed <= Allowed(calls)
      && t.retrySuccess + t.retryExhausted + t.rateLimitDuringRetry <= t.retryAttempts <= t.totalRequests
      && t.rateLimitDuringRetry == t.rateLimitHits
      && t.totalRequests <= t.retryAttempts + |calls|
  {
    if calls != [] {
      var last := calls[|calls| - 1];
      RunBounds(calls[..|calls| - 1]);
      assert StopsAfter(last.call, last.requests);
      CallBounds(last.call, last.requests);
    }
  }
}
