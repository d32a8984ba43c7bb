/**
 The metrics counters as all users share them. Every record_* call takes the
 metrics lock for itself, so users interleave between any two of them: another
 user may look at the counters, or move them, in the middle of a call. What holds
 of the counters holds in all those states.
 */
module SharedMetrics {
  import opened RetryLoop

  // ----- the record_* calls of a user

  datatype Record =
    | Request(success: bool)                                       // record_request
    | Retry(success: bool, exhausted: bool, rateLimited: bool)     // record_retry
    | RateLimitHit                                                 // record_rate_limit_hit
    | Idempotency(duplicate: bool)                                 // record_idempotency_event
    | Error                                                        // record_error

  /** What one record adds to the counters. */
  function One(r: Record): Counters {
    match r
    case Request(success) => NOTHING.(totalRequests := 1, successful := B(success), failed := B(!success))
    case Retry(success, exhausted, rateLimited) =>
      NOTHING.(retryAttempts := 1, retrySuccess := B(success), retryExhausted := B(exhausted), rateLimitDuringRetry := B(rateLimited))
    case RateLimitHit => NOTHING.(rateLimitHits := 1)
    case Idempotency(duplicate) => NOTHING.(idempotencyKeys := 1, duplicates := B(duplicate))
    case Error => NOTHING.(otherErrors := 1)
  }

  /** One attempt of a retry loop. */
  function AttemptRecords(verdict: Verdict, attempt: nat, maxRetries: nat): seq<Record> {
    match verdict
    case Accepted => [Request(true), Idempotency(false)] + if attempt > 0 then [Retry(true, false, false)] else []
    case Duplicate => [Request(true), Idempotency(true)]
    case Unavailable => [Request(false), Retry(false, attempt + 1 == maxRetries, false)]
    case RateLimited => [Request(false), RateLimitHit, Retry(false, false, true)]
    case Broken => [Request(false), Error]
  }

  /** The first r attempts of a call. */
  function CallRecords(c: Call, r: nat): seq<Record> {
    if r == 0 then [] else CallRecords(c, r - 1) + AttemptRecords(Judge(c, r - 1), r - 1, c.maxRetries)
  }

  /** What users do that moves the counters; a retried call ends where its replies make it end. */
  datatype Task =
    | Browse(status: int)
    | Ping(status: int)
    | Retried(call: Call, requests: nat)

  ghost predicate Genuine(t: Task) { t.Retried? ==> StopsAfter(t.call, t.requests) }

  function TaskRecords(t: Task): seq<Record> {
    match t
    case Browse(status) =>
      if status == 200 then [Request(true)]
      else if status == 429 then [Request(false), RateLimitHit, Error]
      else [Request(false), Error]
    case Ping(status) => [Request(status == 200)]
    case Retried(c, r) => CallRecords(c, r)
  }

  function Script(tasks: seq<Task>): seq<Record> {
    if tasks == [] then [] else Script(tasks[..|tasks| - 1]) + TaskRecords(tasks[|tasks| - 1])
  }

  // ----- any number of users, interleaved record by record

  datatype User = User(done: seq<Record>, rest: seq<Record>)
  datatype State = State(counters: Counters, users: seq<User>)

  function Launch(scripts: seq<seq<Task>>): State {
    State(NOTHING, seq(|scripts|, i requires 0 <= i < |scripts| => User([], Script(scripts[i]))))
  }

  predicate Enabled(s: State, i: nat) { i < |s.users| && s.users[i].rest != [] }

  function Apply(s: State, i: nat): State
    requires Enabled(s, i)
  {
    var u := s.users[i];
    State(Plus(s.counters, One(u.rest[0])), s.users[i := User(u.done + [u.rest[0]], u.rest[1..])])
  }

  predicate Possible(s: State, schedule: seq<nat>)
    decreases |schedule|, 0
  {
    schedule == [] ||
    (Possible(s, schedule[..|schedule| - 1]) && Enabled(After(s, schedule[..|schedule| - 1]), schedule[|schedule| - 1]))
  }

  function After(s: State, schedule: seq<nat>): State
    requires Possible(s, schedule)
    decreases |schedule|, 1
  {
    if schedule == [] then s else Apply(After(s, schedule[..|schedule| - 1]), schedule[|schedule| - 1])
  }

  // ----- reading the counters

  /** What can be read off the counters: each of them, the imbalance of requests, and the slack of each bound. */
  datatype Gauge =
    | Total | Successes | Failures | Attempts | RetrySuccesses | Exhausted
    | Hits | LimitedRetries | Keys | Duplicates | Errors
    | Imbalance | SpareAttempts | SpareRequests | SpareHits | SpareFailures | SpareKeys | SpareSuccesses

  function Read(k: Counters, g: Gauge): int {
    match g
    case Total => k.totalRequests
    case Successes => k.successful
    case Failures => k.failed
    case Attempts => k.retryAttempts
    case RetrySuccesses => k.retrySuccess
    case Exhausted => k.retryExhausted
    case Hits => k.rateLimitHits
    case LimitedRetries => k.rateLimitDuringRetry
    case Keys => k.idempotencyKeys
    case Duplicates => k.duplicates
    case Errors => k.otherErrors
    case Imbalance => k.totalRequests - k.successful - k.failed
    case SpareAttempts => k.retryAttempts - k.retrySuccess - k.retryExhausted - k.rateLimitDuringRetry
    case SpareRequests => k.totalRequests - k.retryAttempts
    case SpareHits => k.rateLimitHits - k.rateLimitDuringRetry
    case SpareFailures => k.failed - k.rateLimitHits
    case SpareKeys => k.idempotencyKeys - k.duplicates
    case SpareSuccesses => k.successful - k.idempotencyKeys
  }

  predicate Good(g: Gauge, v: int) { if g.Imbalance? then v == 0 else v >= 0 }

  lemma Additive(a: Counters, b: Counters, g: Gauge)
    ensures Read(Plus(a, b), g) == Read(a, g) + Read(b, g)
  {
  }

  function Worth(r: Record, g: Gauge): int { Read(One(r), g) }

  function Score(records: seq<Record>, g: Gauge): int {
    if records == [] then 0 else Score(records[..|records| - 1], g) + Worth(records[|records| - 1], g)
  }

  lemma {:induction false} ScoreConcat(a: seq<Record>, b: seq<Record>, g: Gauge)
    ensures Score(a + b, g) == Score(a, g) + Score(b, g)
  {
    if b == [] {
      assert a + b == a;
    } else {
      ScoreConcat(a, b[..|b| - 1], g);
      assert (a + b)[..|a + b| - 1] == a + b[..|b| - 1];
    }
  }

  lemma {:induction false} ScoreSnoc(a: seq<Record>, r: Record, g: Gauge)
    ensures Score(a + [r], g) == Score(a, g) + Worth(r, g)
  {
    assert (a + [r])[..|a|] == a;
  }

  // ----- the counters read what the users have recorded so far

  function Sum(users: seq<User>, g: Gauge): int {
    if users == [] then 0 else Sum(users[..|users| - 1], g) + Score(users[|users| - 1].done, g)
  }

  lemma {:induction false} SumStep(users: seq<User>, i: nat, u: User, r: Record, g: Gauge)
    requires i < |users| && u.done == users[i].done + [r]
    ensures Sum(users[i := u], g) == Sum(users, g) + Worth(r, g)
  {
    var n := |users| - 1;
    if i == n {
      assert users[i := u][..n] == users[..n];
      ScoreSnoc(users[i].done, r, g);
    } else {
      SumStep(users[..n], i, u, r, g);
      assert users[i := u][..n] == users[..n][i := u];
    }
  }

  lemma {:induction false} SumOfNothing(users: seq<User>, g: Gauge)
    requires forall i :: 0 <= i < |users| ==> users[i].done == []
    ensures Sum(users, g) == 0
  {
    if users != [] { SumOfNothing(users[..|users| - 1], g); }
  }

  ghost predicate Follows(users: seq<User>, scripts: seq<seq<Task>>) {
    |users| == |scripts| && forall i :: 0 <= i < |scripts| ==> users[i].done + users[i].rest == Script(scripts[i])
  }

  ghost predicate Inv(s: State, scripts: seq<seq<Task>>) {
    Follows(s.users, scripts) && forall g :: Read(s.counters, g) == Sum(s.users, g)
  }

  lemma {:induction false} StepFollows(s: State, scripts: seq<seq<Task>>, i: nat)
    requires Follows(s.users, scripts) && Enabled(s, i)
    ensures Follows(Apply(s, i).users, scripts)
  {
    var u := s.users[i];
    var u' := User(u.done + [u.rest[0]], u.rest[1..]);
    assert u'.done + u'.rest == u.done + u.rest;
  }

  lemma {:induction false} StepKeepsInv(s: State, scripts: seq<seq<Task>>, i: nat)
    requires Inv(s, scripts) && Enabled(s, i)
    ensures Inv(Apply(s, i), scripts)
  {
    StepFollows(s, scripts, i);
    var u := s.users[i];
    forall g ensures Read(Apply(s, i).counters, g) == Sum(Apply(s, i).users, g) {
      SumStep(s.users, i, User(u.done + [u.rest[0]], u.rest[1..]), u.rest[0], g);
      Additive(s.counters, One(u.rest[0]), g);
    }
  }

  lemma {:induction false} RunKeepsInv(scripts: seq<seq<Task>>, schedule: seq<nat>)
    requires Possible(Launch(scripts), schedule)
    ensures Inv(After(Launch(scripts), schedule), scripts)
  {
    if schedule == [] {
      forall g ensures Read(NOTHING, g) == Sum(Launch(scripts).users, g) { SumOfNothing(Launch(scripts).users, g); }
    } else {
      RunKeepsInv(scripts, schedule[..|schedule| - 1]);
      StepKeepsInv(After(Launch(scripts), schedule[..|schedule| - 1]), scripts, schedule[|schedule| - 1]);
    }
  }

  // ----- bounds that hold at every point of every script

  /** Stopping anywhere in the records leaves the gauge good. */
  ghost predicate Throughout(records: seq<Record>, g: Gauge) {
    forall n :: 0 <= n <= |records| ==> Good(g, Score(records[..n], g))
  }

  lemma {:induction false} ThroughoutConcat(a: seq<Record>, b: seq<Record>, g: Gauge)
    requires Throughout(a, g) && Throughout(b, g)
    ensures Throughout(a + b, g)
  {
    forall n | 0 <= n <= |a + b| ensures Good(g, Score((a + b)[..n], g)) {
      if n <= |a| {
        assert (a + b)[..n] == a[..n];
      } else {
        assert (a + b)[..n] == a + b[..n - |a|] && a == a[..|a|];
        ScoreConcat(a, b[..n - |a|], g);
      }
    }
  }

  lemma {:induction false} ThroughoutSnoc(a: seq<Record>, r: Record, g: Gauge)
    requires Throughout(a, g) && Good(g, Score(a, g) + Worth(r, g))
    ensures Throughout(a + [r], g) && Score(a + [r], g) == Score(a, g) + Worth(r, g)
  {
    ScoreSnoc(a, r, g);
    forall n | 0 <= n <= |a| + 1 ensures Good(g, Score((a + [r])[..n], g)) {
      assert (a + [r])[..n] == if n <= |a| then a[..n] else a + [r];
    }
  }

  lemma {:induction false} OneGood(r: Record, g: Gauge)
    requires Good(g, Worth(r, g))
    ensures Throughout([r], g) && Score([r], g) == Worth(r, g)
  {
    assert [] + [r] == [r];
    ThroughoutSnoc([], r, g);
  }

  lemma {:induction false} TwoGood(r: Record, q: Record, g: Gauge)
    requires Good(g, Worth(r, g)) && Good(g, Worth(r, g) + Worth(q, g))
    ensures Throughout([r, q], g) && Score([r, q], g) == Worth(r, g) + Worth(q, g)
  {
    OneGood(r, g);
    assert [r] + [q] == [r, q];
    ThroughoutSnoc([r], q, g);
  }

  lemma {:induction false} ThreeGood(r: Record, q: Record, p: Record, g: Gauge)
    requires Good(g, Worth(r, g)) && Good(g, Worth(r, g) + Worth(q, g)) && Good(g, Worth(r, g) + Worth(q, g) + Worth(p, g))
    ensures Throughout([r, q, p], g) && Score([r, q, p], g) == Worth(r, g) + Worth(q, g) + Worth(p, g)
  {
    TwoGood(r, q, g);
    assert [r, q] + [p] == [r, q, p];
    ThroughoutSnoc([r, q], p, g);
  }

  /** Every attempt keeps the bounds at each of its records, and adds what the loop says it adds. */
  lemma {:induction false} AttemptGood(verdict: Verdict, attempt: nat, maxRetries: nat, g: Gauge)
    ensures Throughout(AttemptRecords(verdict, attempt, maxRetries), g)
    ensures Score(AttemptRecords(verdict, attempt, maxRetries), g) == Read(Delta(verdict, attempt, maxRetries), g)
  {
    match verdict
    case Accepted => AcceptedGood(attempt, maxRetries, g);
    case Duplicate => KeyGood(true, g);
    case Unavailable => RetryGood(attempt + 1 == maxRetries, g);
    case RateLimited => LimitedGood(Retry(false, false, true), g);
    case Broken => ErrorGood(g);
  }

  lemma {:induction false} AcceptedGood(attempt: nat, maxRetries: nat, g: Gauge)
    ensures Throughout(AttemptRecords(Accepted, attempt, maxRetries), g)
    ensures Score(AttemptRecords(Accepted, attempt, maxRetries), g) == Read(Delta(Accepted, attempt, maxRetries), g)
  {
    var first, retry := [Request(true), Idempotency(false)], Retry(true, false, false);
    KeyGood(false, g);
    if attempt > 0 {
      ThroughoutSnoc(first, retry, g);
    } else {
      assert first + [] == first;
    }
  }

  lemma {:induction false} KeyGood(duplicate: bool, g: Gauge)
    ensures Throughout([Request(true), Idempotency(duplicate)], g)
    ensures Score([Request(true), Idempotency(duplicate)], g) == Read(Counters(1, 1, 0, 0, 0, 0, 0, 0, 1, B(duplicate), 0), g)
  {
    TwoGood(Request(true), Idempotency(duplicate), g);
  }

  lemma {:induction false} RetryGood(exhausted: bool, g: Gauge)
    ensures Throughout([Request(false), Retry(false, exhausted, false)], g)
    ensures Score([Request(false), Retry(false, exhausted, false)], g) == Read(Counters(1, 0, 1, 1, 0, B(exhausted), 0, 0, 0, 0, 0), g)
  {
    TwoGood(Request(false), Retry(false, exhausted, false), g);
  }

  lemma {:induction false} ErrorGood(g: Gauge)
    ensures Throughout([Request(false), Error], g)
    ensures Score([Request(false), Error], g) == Read(Counters(1, 0, 1, 0, 0, 0, 0, 0, 0, 0, 1), g)
  {
    TwoGood(Request(false), Error, g);
  }

  /** A rate-limited request, followed by its retry or its error. */
  lemma {:induction false} LimitedGood(last: Record, g: Gauge)
    requires last == Retry(false, false, true) || last == Error
    ensures Throughout([Request(false), RateLimitHit, last], g)
    ensures Score([Request(false), RateLimitHit, last], g) ==
            Read(Counters(1, 0, 1, B(last.Retry?), 0, 0, 1, B(last.Retry?), 0, 0, B(last.Error?)), g)
  {
    ThreeGood(Request(false), RateLimitHit, last, g);
  }

  lemma {:induction false} CallGood(c: Call, r: nat, g: Gauge)
    ensures Throughout(CallRecords(c, r), g)
  {
    if r > 0 {
      CallGood(c, r - 1, g);
      AttemptGood(Judge(c, r - 1), r - 1, c.maxRetries, g);
      ThroughoutConcat(CallRecords(c, r - 1), AttemptRecords(Judge(c, r - 1), r - 1, c.maxRetries), g);
    }
  }

  lemma {:induction false} TaskGood(t: Task, g: Gauge)
    ensures Throughout(TaskRecords(t), g)
  {
    match t
    case Browse(status) =>
      if status == 200 { OneGood(Request(true), g); } else if status == 429 { LimitedGood(Error, g); } else { ErrorGood(g); }
    case Ping(status) => OneGood(Request(status == 200), g);
    case Retried(c, r) => CallGood(c, r, g);
  }

  lemma {:induction false} ScriptGood(tasks: seq<Task>, g: Gauge)
    ensures Throughout(Script(tasks), g)
  {
    if tasks != [] {
      ScriptGood(tasks[..|tasks| - 1], g);
      TaskGood(tasks[|tasks| - 1], g);
      ThroughoutConcat(Script(tasks[..|tasks| - 1]), TaskRecords(tasks[|tasks| - 1]), g);
    }
  }

  lemma {:induction false} SumGood(users: seq<User>, scripts: seq<seq<Task>>, g: Gauge)
    requires Follows(users, scripts)
    ensures Good(g, Sum(users, g))
  {
    if users != [] {
      var n := |users| - 1;
      var u, script := users[n], Script(scripts[n]);
      SumGood(users[..n], scripts[..n], g);
      ScriptGood(scripts[n], g);
      assert u.done == script[..|u.done|];
    }
  }

  predicate Bounded(k: Counters) {
    && k.totalRequests == k.successful + k.failed
    && k.retrySuccess + k.retryExhausted + k.rateLimitDuringRetry <= k.retryAttempts <= k.totalRequests
    && k.rateLimitDuringRetry <= k.rateLimitHits <= k.failed
    && k.duplicates <= k.idempotencyKeys <= k.successful
  }

  lemma BoundedByGauges(k: Counters)
    requires forall g :: Good(g, Read(k, g))
    ensures Bounded(k)
  {
    assert Good(Imbalance, Read(k, Imbalance)) && Good(SpareAttempts, Read(k, SpareAttempts));
    assert Good(SpareRequests, Read(k, SpareRequests)) && Good(SpareHits, Read(k, SpareHits));
    assert Good(SpareFailures, Read(k, SpareFailures)) && Good(SpareKeys, Read(k, SpareKeys));
    assert Good(SpareSuccesses, Read(k, SpareSuccesses));
  }

  /**
   In every state any number of users can bring the counters to, in the middle of
   calls as well as between them: requests are successes plus failures, retry
   outcomes never outnumber retries, nor retries requests.
   */
  lemma {:induction false} AlwaysBounded(scripts: seq<seq<Task>>, schedule: seq<nat>)
    requires Possible(Launch(scripts), schedule)
    ensures Bounded(After(Launch(scripts), schedule).counters)
  {
    var s := After(Launch(scripts), schedule);
    RunKeepsInv(scripts, schedule);
    forall g ensures Good(g, Read(s.counters, g)) { SumGood(s.users, scripts, g); }
    BoundedByGauges(s.counters);
  }

  // ----- when everybody is done, nothing is lost

  lemma {:induction false} CallScore(c: Call, r: nat, g: Gauge)
    requires r <= c.maxRetries && forall i :: 0 <= i < r - 1 ==> Retryable(c, i)
    ensures Score(CallRecords(c, r), g) == Read(Effect(c, r), g)
  {
    if r > 0 {
      var n := r - 1;
      var verdict := Judge(c, n);
      CallScore(c, n, g);
      AttemptGood(verdict, n, c.maxRetries, g);
      EffectGrows(c, n);
      ScoreGrows(CallRecords(c, n), AttemptRecords(verdict, n, c.maxRetries),
                 Effect(c, n), Delta(verdict, n, c.maxRetries), Effect(c, n + 1), g);
    }
  }

  lemma {:induction false} ScoreGrows(a: seq<Record>, b: seq<Record>, before: Counters, delta: Counters, after: Counters, g: Gauge)
    requires Score(a, g) == Read(before, g) && Score(b, g) == Read(delta, g) && Plus(before, delta) == after
    ensures Score(a + b, g) == Read(after, g)
  {
    ScoreConcat(a, b, g);
    Additive(before, delta, g);
  }

  /** What a task adds by itself: for a retried call, the closed form of its loop. */
  function TaskEffect(t: Task): Counters {
    match t
    case Browse(status) => Counters(1, B(status == 200), B(status != 200), 0, 0, 0, B(status == 429), 0, 0, 0, B(status != 200))
    case Ping(status) => Counters(1, B(status == 200), B(status != 200), 0, 0, 0, 0, 0, 0, 0, 0)
    case Retried(c, r) => Effect(c, r)
  }

  lemma {:induction false} TaskScore(t: Task, g: Gauge)
    requires Genuine(t)
    ensures Score(TaskRecords(t), g) == Read(TaskEffect(t), g)
  {
    match t
    case Browse(status) =>
      if status == 200 { OneGood(Request(true), g); } else if status == 429 { LimitedGood(Error, g); } else { ErrorGood(g); }
    case Ping(status) => OneGood(Request(status == 200), g);
    case Retried(c, r) => CallScore(c, r, g);
  }

  function Effects(tasks: seq<Task>): Counters {
    if tasks == [] then NOTHING else Plus(Effects(tasks[..|tasks| - 1]), TaskEffect(tasks[|tasks| - 1]))
  }

  function AllEffects(scripts: seq<seq<Task>>): Counters {
    if scripts == [] then NOTHING else Plus(AllEffects(scripts[..|scripts| - 1]), Effects(scripts[|scripts| - 1]))
  }

  ghost predicate AllGenuine(tasks: seq<Task>) { forall k :: 0 <= k < |tasks| ==> Genuine(tasks[k]) }

  lemma {:induction false} ScriptScore(tasks: seq<Task>, g: Gauge)
    requires AllGenuine(tasks)
    ensures Score(Script(tasks), g) == Read(Effects(tasks), g)
  {
    if tasks != [] {
      var earlier, t := tasks[..|tasks| - 1], tasks[|tasks| - 1];
      ScriptScore(earlier, g);
      ScoreConcat(Script(earlier), TaskRecords(t), g);
      TaskScore(t, g);
      Additive(Effects(earlier), TaskEffect(t), g);
    }
  }

  lemma {:induction false} SumOfScripts(users: seq<User>, scripts: seq<seq<Task>>, g: Gauge)
    requires |users| == |scripts| && forall i :: 0 <= i < |users| ==> users[i].done == Script(scripts[i]) && AllGenuine(scripts[i])
    ensures Sum(users, g) == Read(AllEffects(scripts), g)
  {
    if users != [] {
      var n := |users| - 1;
      SumOfScripts(users[..n], scripts[..n], g);
      ScriptScore(scripts[n], g);
      Additive(AllEffects(scripts[..n]), Effects(scripts[n]), g);
    }
  }

  lemma SameReadings(a: Counters, b: Counters)
    requires forall g :: Read(a, g) == Read(b, g)
    ensures a == b
  {
    assert Read(a, Total) == Read(b, Total) && Read(a, Successes) == Read(b, Successes) && Read(a, Failures) == Read(b, Failures);
    assert Read(a, Attempts) == Read(b, Attempts) && Read(a, RetrySuccesses) == Read(b, RetrySuccesses);
    assert Read(a, Exhausted) == Read(b, Exhausted) && Read(a, Hits) == Read(b, Hits);
    assert Read(a, LimitedRetries) == Read(b, LimitedRetries) && Read(a, Keys) == Read(b, Keys);
    assert Read(a, Duplicates) == Read(b, Duplicates) && Read(a, Errors) == Read(b, Errors);
  }

  /** However the users interleave, once all are done the counters are the sum of their tasks, each as if it had run alone. */
  lemma {:induction false} NothingLost(scripts: seq<seq<Task>>, schedule: seq<nat>)
    requires Possible(Launch(scripts), schedule) && forall i :: 0 <= i < |scripts| ==> AllGenuine(scripts[i])
    requires forall i :: !Enabled(After(Launch(scripts), schedule), i)
    ensures After(Launch(scripts), schedule).counters == AllEffects(scripts)
  {
    var s := After(Launch(scripts), schedule);
    RunKeepsInv(scripts, schedule);
    forall i: nat | i < |s.users| ensures s.users[i].done == Script(scripts[i]) {
      assert !Enabled(s, i);
      assert s.users[i].done + s.users[i].rest == Script(scripts[i]);
    }
    forall g ensures Read(s.counters, g) == Read(AllEffects(scripts), g) { SumOfScripts(s.users, scripts, g); }
    SameReadings(s.counters, AllEffects(scripts));
  }
}
