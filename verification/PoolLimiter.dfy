/**
 The connection pool limiter as a monitor: one lock, one condition variable on
 that lock, a shared counter, and any number of requests interleaving step by
 step. Each request carries its own limit (its `X-Max-Connections` header),
 which may be any integer. Times are in seconds; the clock never runs backwards.
 */
module PoolLimiter {
  import opened Wrappers

  type Request = nat

  const PATIENCE := 5.0  // seconds a request keeps waiting before it is refused
  const NAP := 1.0       // timeout of one wait on the condition

  /** Where a request stands in the middleware. */
  datatype Phase =
    | Arriving(limit: int)                                             // wants the lock
    | Checking(limit: int, since: real)                                // holds the lock, at the loop head
    | Asleep(limit: int, since: real, sleptAt: real, notified: bool)   // in wait, lock given up
    | Waking(limit: int, since: real)                                  // out of wait, wants the lock again
    | Running(limit: int)                                              // admitted, handler at work
    | Leaving(limit: int)                                              // handler ended, wants the lock
    | Releasing(limit: int)                                            // holds the lock to leave
    | Done
    | Rejected(limit: int, active: int, waited: real)                  // answered 503

  predicate Holding(p: Phase) { p.Checking? || p.Releasing? }
  predicate InFlight(p: Phase) { p.Running? || p.Leaving? || p.Releasing? }
  predicate Finished(p: Phase) { p.Done? || p.Rejected? }
  predicate Dormant(p: Phase) { p.Asleep? && !p.notified }

  /** `flight` is a history variable: the requests in flight, oldest admission first. */
  datatype State = State(
    active: int,
    lock: Option<Request>,
    requests: map<Request, Phase>,
    now: real,
    flight: seq<Request>)

  const START := State(0, None, map[], 0.0, [])

  datatype Event =
    | Arrive(r: Request, limit: int)
    | Lock(r: Request)       // first acquisition, re-acquisition inside wait, or acquisition to leave
    | Admit(r: Request)
    | Sleep(r: Request)
    | Refuse(r: Request)
    | Hear(r: Request)       // a notified sleeper returns from its wait
    | TimeOut(r: Request)    // an un-notified sleeper gives up its nap
    | Finish(r: Request)     // the handler returns or raises
    | Release(r: Request)
    | Tick(delta: real)

  predicate Enabled(s: State, e: Event) {
    match e
    case Arrive(r, _) => r !in s.requests
    case Tick(delta) => delta >= 0.0
    case Lock(r) => r in s.requests && s.lock.None? && (s.requests[r].Arriving? || s.requests[r].Waking? || s.requests[r].Leaving?)
    case Admit(r) => r in s.requests && s.requests[r].Checking? && s.active < s.requests[r].limit
    case Sleep(r) => r in s.requests && s.requests[r].Checking? && s.active >= s.requests[r].limit && s.now - s.requests[r].since <= PATIENCE
    case Refuse(r) => r in s.requests && s.requests[r].Checking? && s.active >= s.requests[r].limit && s.now - s.requests[r].since > PATIENCE
    case Hear(r) => r in s.requests && s.requests[r].Asleep? && s.requests[r].notified
    case TimeOut(r) => r in s.requests && Dormant(s.requests[r]) && s.now >= s.requests[r].sleptAt + NAP
    case Finish(r) => r in s.requests && s.requests[r].Running?
    case Release(r) => r in s.requests && s.requests[r].Releasing? && r in s.flight
  }

  function Notify(p: Phase): Phase {
    if p.Asleep? then p.(notified := true) else p
  }

  /** The releasing request is done; every sleeper has been notified. */
  function NotifyAll(requests: map<Request, Phase>, r: Request): map<Request, Phase> {
    map q | q in requests :: if q == r then Done else Notify(requests[q])
  }

  function Position(q: seq<Request>, r: Request): (k: nat)
    requires r in q
    ensures k < |q| && q[k] == r
  {
    if q[0] == r then 0 else 1 + Position(q[1..], r)
  }

  function Apply(s: State, e: Event): State
    requires Enabled(s, e)
  {
    match e
    case Arrive(r, limit) => s.(requests := s.requests[r := Arriving(limit)])
    case Tick(delta) => s.(now := s.now + delta)
    case Lock(r) =>
      var p := s.requests[r];
      var p' := if p.Arriving? then Checking(p.limit, s.now)
                else if p.Waking? then Checking(p.limit, p.since)
                else Releasing(p.limit);
      s.(lock := Some(r), requests := s.requests[r := p'])
    case Admit(r) =>
      s.(active := s.active + 1, lock := None, flight := s.flight + [r],
         requests := s.requests[r := Running(s.requests[r].limit)])
    case Sleep(r) =>
      s.(lock := None, requests := s.requests[r := Asleep(s.requests[r].limit, s.requests[r].since, s.now, false)])
    case Refuse(r) =>
      s.(lock := None, requests := s.requests[r := Rejected(s.requests[r].limit, s.active, s.now - s.requests[r].since)])
    case Hear(r) => s.(requests := s.requests[r := Waking(s.requests[r].limit, s.requests[r].since)])
    case TimeOut(r) => s.(requests := s.requests[r := Waking(s.requests[r].limit, s.requests[r].since)])
    case Finish(r) => s.(requests := s.requests[r := Leaving(s.requests[r].limit)])
    case Release(r) =>
      var k := Position(s.flight, r);
      s.(active := s.active - 1, lock := None, flight := s.flight[..k] + s.flight[k + 1..],
         requests := NotifyAll(s.requests, r))
  }

  /** Interleavings: any sequence of enabled events from the start. */
  predicate Possible(s: State, run: seq<Event>)
    decreases |run|
  {
    run == [] || (Enabled(s, run[0]) && Possible(Apply(s, run[0]), run[1..]))
  }

  function After(s: State, run: seq<Event>): State
    requires Possible(s, run)
    decreases |run|
  {
    if run == [] then s else After(Apply(s, run[0]), run[1..])
  }

  // ----- the inductive invariant

  ghost predicate LockConsistent(s: State) {
    && (s.lock.Some? ==> s.lock.value in s.requests)
    && forall r :: r in s.requests ==> (Holding(s.requests[r]) <==> s.lock == Some(r))
  }

  type Line = seq<Request>
  type Phases = map<Request, Phase>

  ghost predicate Distinct(q: Line) {
    forall i, j :: 0 <= i < j < |q| ==> q[i] != q[j]
  }

  /** The k-th oldest request in flight asked for a limit of at least k. */
  ghost predicate Placed(requests: Phases, q: Line) {
    forall i :: 0 <= i < |q| ==> q[i] in requests && InFlight(requests[q[i]]) && requests[q[i]].limit > i
  }

  ghost predicate Covered(requests: Phases, q: Line) {
    forall r :: r in requests && InFlight(requests[r]) ==> r in q
  }

  ghost predicate FlightConsistent(s: State) {
    s.active == |s.flight| && Distinct(s.flight) && Placed(s.requests, s.flight) && Covered(s.requests, s.flight)
  }

  ghost predicate WaitConsistent(s: State) {
    forall r :: r in s.requests ==>
      && (Dormant(s.requests[r]) ==> s.active >= s.requests[r].limit)
      && (s.requests[r].Asleep? ==> s.requests[r].sleptAt - s.requests[r].since <= PATIENCE)
      && (s.requests[r].Rejected? ==> s.requests[r].active >= s.requests[r].limit && s.requests[r].waited > PATIENCE)
  }

  ghost predicate Inv(s: State) {
    LockConsistent(s) && FlightConsistent(s) && WaitConsistent(s)
  }

  lemma AdmitKeepsFlight(s: State, r: Request)
    requires LockConsistent(s) && FlightConsistent(s) && Enabled(s, Admit(r))
    ensures FlightConsistent(Apply(s, Admit(r)))
  {
    var s' := Apply(s, Admit(r));
    assert r !in s.flight;
    forall q | q in s'.requests && InFlight(s'.requests[q]) ensures q in s'.flight {
      if q != r { assert q in s.flight; }
    }
  }

  lemma TakenOut(q: Line, k: nat)
    requires k < |q| && Distinct(q)
    ensures var rest := q[..k] + q[k + 1..];
      Distinct(rest) && forall r :: r in rest <==> r in q && r != q[k]
  {
    var rest := q[..k] + q[k + 1..];
    forall r | r in q && r != q[k] ensures r in rest {
      var i :| 0 <= i < |q| && q[i] == r;
      assert rest[if i < k then i else i - 1] == r;
    }
  }

  /** Taking one request out of the line moves the later ones up, never back. */
  lemma PlacedAfter(requests: Phases, q: Line, k: nat)
    requires k < |q| && Placed(requests, q)
    ensures Placed(requests, q[..k] + q[k + 1..])
  {
    var rest := q[..k] + q[k + 1..];
    forall i | 0 <= i < |rest| ensures rest[i] in requests && InFlight(requests[rest[i]]) && requests[rest[i]].limit > i {
      var j := if i < k then i else i + 1;
      assert rest[i] == q[j];
    }
  }

  lemma NotifyKeepsPlaces(requests: Phases, r: Request, q: Line)
    requires Placed(requests, q) && r !in q
    ensures Placed(NotifyAll(requests, r), q)
  {
    forall i | 0 <= i < |q|
      ensures q[i] in NotifyAll(requests, r) && InFlight(NotifyAll(requests, r)[q[i]]) && NotifyAll(requests, r)[q[i]].limit > i
    {
      assert q[i] in q;
    }
  }

  lemma NotifyKeepsCover(requests: Phases, r: Request, q: Line, rest: Line)
    requires Covered(requests, q) && forall x :: x in q && x != r ==> x in rest
    ensures Covered(NotifyAll(requests, r), rest)
  {
  }

  lemma ReleaseKeepsFlight(s: State, r: Request)
    requires FlightConsistent(s) && Enabled(s, Release(r))
    ensures FlightConsistent(Apply(s, Release(r)))
  {
    var k := Position(s.flight, r);
    var rest := s.flight[..k] + s.flight[k + 1..];
    TakenOut(s.flight, k);
    PlacedAfter(s.requests, s.flight, k);
    NotifyKeepsPlaces(s.requests, r, rest);
    NotifyKeepsCover(s.requests, r, s.flight, rest);
  }

  lemma OthersKeepFlight(s: State, e: Event)
    requires FlightConsistent(s) && Enabled(s, e) && !e.Admit? && !e.Release?
    ensures FlightConsistent(Apply(s, e))
  {
  }

  lemma StepKeepsLock(s: State, e: Event)
    requires LockConsistent(s) && Enabled(s, e)
    ensures LockConsistent(Apply(s, e))
  {
  }

  lemma StepKeepsWaits(s: State, e: Event)
    requires WaitConsistent(s) && Enabled(s, e)
    ensures WaitConsistent(Apply(s, e))
  {
  }

  lemma StepKeepsInv(s: State, e: Event)
    requires Inv(s) && Enabled(s, e)
    ensures Inv(Apply(s, e))
  {
    if e.Admit? { AdmitKeepsFlight(s, e.r); } else if e.Release? { ReleaseKeepsFlight(s, e.r); } else { OthersKeepFlight(s, e); }
    StepKeepsLock(s, e);
    StepKeepsWaits(s, e);
  }

  lemma {:induction false} RunKeepsInv(s: State, run: seq<Event>)
    requires Inv(s) && Possible(s, run)
    ensures Inv(After(s, run))
    decreases |run|
  {
    if run != [] {
      StepKeepsInv(s, run[0]);
      RunKeepsInv(Apply(s, run[0]), run[1..]);
    }
  }

  // ----- what holds in every reachable state

  /** No lost wakeup: whoever sleeps un-notified has no room to be admitted. */
  lemma NoLostWakeup(run: seq<Event>, r: Request)
    requires Possible(START, run)
    requires r in After(START, run).requests && Dormant(After(START, run).requests[r])
    ensures After(START, run).active >= After(START, run).requests[r].limit
  {
    RunKeepsInv(START, run);
  }

  /** The counter is exactly the number of admitted, not yet released requests. */
  lemma ExactCount(run: seq<Event>)
    requires Possible(START, run)
    ensures var s := After(START, run); s.active == |(set r | r in s.requests && InFlight(s.requests[r]))|
  {
    RunKeepsInv(START, run);
    var s := After(START, run);
    DistinctCount(s.flight);
    assert (set r | r in s.requests && InFlight(s.requests[r])) == Members(s.flight);
  }

  function Members(q: seq<Request>): set<Request> { set r | r in q }

  lemma {:induction false} DistinctCount(q: seq<Request>)
    requires Distinct(q)
    ensures |Members(q)| == |q|
  {
    if q != [] {
      DistinctCount(q[1..]);
      assert q[0] !in Members(q[1..]);
      assert Members(q) == {q[0]} + Members(q[1..]);
    }
  }

  /** The counter never exceeds the limit of the latest admission still in flight. */
  lemma BoundedByLatestAdmission(run: seq<Event>)
    requires Possible(START, run)
    ensures var s := After(START, run);
      && 0 <= s.active == |s.flight|
      && (s.active > 0 ==>
           var latest := s.flight[s.active - 1];
           latest in s.requests && InFlight(s.requests[latest]) && s.active <= s.requests[latest].limit)
  {
    RunKeepsInv(START, run);
  }

  /** Every limit asked for in the run is acceptable. */
  ghost predicate LimitsOf(run: seq<Event>, ok: int -> bool) {
    forall i :: 0 <= i < |run| && run[i].Arrive? ==> ok(run[i].limit)
  }

  ghost predicate RequestsOf(s: State, ok: int -> bool) {
    forall r :: r in s.requests && !s.requests[r].Done? ==> ok(s.requests[r].limit)
  }

  lemma {:induction false} RunKeepsLimits(s: State, run: seq<Event>, ok: int -> bool)
    requires Possible(s, run) && LimitsOf(run, ok) && RequestsOf(s, ok)
    ensures RequestsOf(After(s, run), ok)
    decreases |run|
  {
    if run != [] {
      assert run[0].Arrive? ==> ok(run[0].limit);
      assert forall i :: 0 <= i < |run[1..]| ==> run[1..][i] == run[i + 1];
      RunKeepsLimits(Apply(s, run[0]), run[1..], ok);
    }
  }

  /** If no request asks for more than `high`, no interleaving exceeds it. */
  lemma BoundedByCommonLimit(run: seq<Event>, high: nat)
    requires Possible(START, run) && LimitsOf(run, limit => limit <= high)
    ensures After(START, run).active <= high
  {
    BoundedByLatestAdmission(run);
    RunKeepsLimits(START, run, limit => limit <= high);
  }

  /** A step some request can take by itself, without the clock and without a nap running out. */
  predicate Prompt(e: Event) { !e.Tick? && !e.TimeOut? && !e.Arrive? }

  /**
   With positive limits the monitor never depends on its timeouts: while any
   request is unfinished, some request can move at once.
   */
  lemma NeverStuck(run: seq<Event>, r: Request) returns (e: Event)
    requires Possible(START, run) && LimitsOf(run, limit => limit >= 1)
    requires r in After(START, run).requests && !Finished(After(START, run).requests[r])
    ensures Prompt(e) && Enabled(After(START, run), e)
  {
    var s := After(START, run);
    RunKeepsInv(START, run);
    RunKeepsLimits(START, run, limit => limit >= 1);
    e := PromptStep(s, r);
  }

  lemma PromptStep(s: State, r: Request) returns (e: Event)
    requires Inv(s) && RequestsOf(s, limit => limit >= 1)
    requires r in s.requests && !Finished(s.requests[r])
    ensures Prompt(e) && Enabled(s, e)
  {
    if s.lock.Some? {
      var h := s.lock.value;
      var p := s.requests[h];
      e := if p.Releasing? then Release(h)
           else if s.active < p.limit then Admit(h)
           else if s.now - p.since <= PATIENCE then Sleep(h) else Refuse(h);
    } else if Dormant(s.requests[r]) {
      // an un-notified sleeper means somebody is in flight, and nobody holds the lock
      var q := s.flight[0];
      assert q in s.requests && InFlight(s.requests[q]);
      e := if s.requests[q].Running? then Finish(q) else Lock(q);
    } else {
      var p := s.requests[r];
      e := if p.Asleep? then Hear(r) else if p.Running? then Finish(r) else Lock(r);
    }
  }

  /** A non-positive limit is never admitted: such a request only leaves by refusal. */
  lemma NonPositiveNeverAdmitted(run: seq<Event>, r: Request)
    requires Possible(START, run)
    requires r in After(START, run).requests && InFlight(After(START, run).requests[r])
    ensures After(START, run).requests[r].limit >= 1
  {
    RunKeepsInv(START, run);
  }

  /** While a request is unfinished, some request can move at once. */
  ghost predicate Progresses(s: State) {
    (exists r :: r in s.requests && !Finished(s.requests[r])) ==> exists e :: Prompt(e) && Enabled(s, e)
  }

  /** A lone request whose limit is not positive can only wait for its nap to end. */
  lemma StuckWithoutRoom(limit: int) returns (run: seq<Event>)
    requires limit <= 0
    ensures Possible(START, run) && !Progresses(After(START, run))
    ensures run == [Arrive(0, limit), Lock(0), Sleep(0)]
  {
    var arrive, lock, sleep := Arrive(0, limit), Lock(0), Sleep(0);
    var s1 := Apply(START, arrive);
    var s2 := Apply(s1, lock);
    var s3 := Apply(s2, sleep);
    run := [arrive] + ([lock] + ([sleep] + []));
    FirstStep(s2, sleep, []);
    FirstStep(s1, lock, [sleep] + []);
    FirstStep(START, arrive, [lock] + ([sleep] + []));
    assert After(START, run) == s3;
    assert 0 in s3.requests && !Finished(s3.requests[0]);
  }

  /**
   Which limits make the timeouts unnecessary: every run of requests with
   acceptable limits can always move at once exactly when every acceptable limit
   is positive.
   */
  lemma ProgressExactly(ok: int -> bool)
    ensures (forall limit :: ok(limit) ==> limit >= 1) <==>
            (forall run :: Possible(START, run) && LimitsOf(run, ok) ==> Progresses(After(START, run)))
  {
    if forall limit :: ok(limit) ==> limit >= 1 {
      forall run | Possible(START, run) && LimitsOf(run, ok) ensures Progresses(After(START, run)) {
        var s := After(START, run);
        if r :| r in s.requests && !Finished(s.requests[r]) {
          var e := NeverStuck(run, r);
        }
      }
    } else {
      var limit :| ok(limit) && limit <= 0;
      var run := StuckWithoutRoom(limit);
      assert LimitsOf(run, ok);
    }
  }

  lemma FirstStep(s: State, e: Event, rest: seq<Event>)
    ensures Possible(s, [e] + rest) <==> Enabled(s, e) && Possible(Apply(s, e), rest)
    ensures Possible(s, [e] + rest) ==> After(s, [e] + rest) == After(Apply(s, e), rest)
  {
    assert ([e] + rest)[1..] == rest;
  }

  // ----- what the state says about the run, read off the events alone

  /** The clock: the ticks so far. */
  function Clock(run: seq<Event>): real {
    if run == [] then 0.0 else Clock(run[..|run| - 1]) + if run[|run| - 1].Tick? then run[|run| - 1].delta else 0.0
  }

  /** The limit a request arrived with. */
  function LimitIn(run: seq<Event>, r: Request): Option<int> {
    if run == [] then None
    else if run[|run| - 1].Arrive? && run[|run| - 1].r == r then Some(run[|run| - 1].limit)
    else LimitIn(run[..|run| - 1], r)
  }

  /** When a request first took the lock. */
  function FirstLock(run: seq<Event>, r: Request): Option<real> {
    if run == [] then None else
      var earlier := FirstLock(run[..|run| - 1], r);
      if earlier.None? && run[|run| - 1] == Lock(r) then Some(Clock(run[..|run| - 1])) else earlier
  }

  /** When an event last happened. */
  function LastTime(run: seq<Event>, e: Event): Option<real> {
    if run == [] then None
    else if run[|run| - 1] == e then Some(Clock(run[..|run| - 1]))
    else LastTime(run[..|run| - 1], e)
  }

  /** Admissions less releases. */
  function Load(run: seq<Event>): int {
    if run == [] then 0 else
      var e, before := run[|run| - 1], Load(run[..|run| - 1]);
      if e.Admit? then before + 1 else if e.Release? then before - 1 else before
  }

  /** The load when an event last happened. */
  function LoadAt(run: seq<Event>, e: Event): int {
    if run == [] then 0
    else if run[|run| - 1] == e then Load(run[..|run| - 1])
    else LoadAt(run[..|run| - 1], e)
  }

  /** Everything a request's phase records is what the events say. */
  ghost predicate Told(run: seq<Event>, r: Request, p: Phase) {
    && (!p.Done? ==> LimitIn(run, r) == Some(p.limit))
    && (p.Arriving? <==> FirstLock(run, r).None?)
    && (p.Checking? || p.Asleep? || p.Waking? ==> FirstLock(run, r) == Some(p.since))
    && (p.Asleep? ==> LastTime(run, Sleep(r)) == Some(p.sleptAt))
    && (p.Rejected? ==>
          && LastTime(run, Refuse(r)).Some? && FirstLock(run, r).Some?
          && p.waited == LastTime(run, Refuse(r)).value - FirstLock(run, r).value
          && p.active == LoadAt(run, Refuse(r)))
  }

  ghost predicate AllTold(run: seq<Event>, s: State) {
    && s.now == Clock(run) && s.active == Load(run)
    && (forall r :: r in s.requests ==> Told(run, r, s.requests[r]))
    && (forall r :: r !in s.requests ==> FirstLock(run, r).None?)
  }

  lemma {:induction false} LastStep(s: State, run: seq<Event>, e: Event)
    requires Possible(s, run + [e])
    ensures Possible(s, run) && Enabled(After(s, run), e) && After(s, run + [e]) == Apply(After(s, run), e)
    decreases |run|
  {
    if run == [] {
      assert [] + [e] == [e] && [e][1..] == [];
    } else {
      assert (run + [e])[1..] == run[1..] + [e] && (run + [e])[0] == run[0];
      LastStep(Apply(s, run[0]), run[1..], e);
    }
  }

  /** Another event leaves what is told of a request as it was. */
  lemma {:induction false} StillTold(run: seq<Event>, e: Event, r: Request, p: Phase)
    requires Told(run, r, p) && (e.Tick? || e.r != r)
    ensures Told(run + [e], r, p)
  {
    assert (run + [e])[..|run|] == run;
  }

  lemma {:induction false} FirstLockAfter(run: seq<Event>, e: Event, r: Request)
    ensures FirstLock(run + [e], r) == if FirstLock(run, r).None? && e == Lock(r) then Some(Clock(run)) else FirstLock(run, r)
  {
    assert (run + [e])[..|run|] == run;
  }

  /** What an event says of the request it is about. */
  lemma {:induction false} NewlyTold(run: seq<Event>, s: State, e: Event)
    requires AllTold(run, s) && Enabled(s, e) && !e.Tick?
    ensures e.r in Apply(s, e).requests && Told(run + [e], e.r, Apply(s, e).requests[e.r])
  {
    assert (run + [e])[..|run|] == run;
    FirstLockAfter(run, e, e.r);
  }

  lemma {:induction false} NotifiedTold(run: seq<Event>, r: Request, p: Phase)
    requires Told(run, r, p)
    ensures Told(run, r, Notify(p))
  {
  }

  lemma {:induction false} StepTold(run: seq<Event>, s: State, e: Event)
    requires AllTold(run, s) && Enabled(s, e)
    ensures AllTold(run + [e], Apply(s, e))
  {
    var run', s' := run + [e], Apply(s, e);
    assert run'[..|run|] == run;
    if !e.Tick? { NewlyTold(run, s, e); }
    forall r | r in s'.requests && (e.Tick? || e.r != r) ensures Told(run', r, s'.requests[r]) {
      StillTold(run, e, r, s.requests[r]);
      NotifiedTold(run', r, s.requests[r]);
    }
    forall r | r !in s'.requests ensures FirstLock(run', r).None? { FirstLockAfter(run, e, r); }
  }

  lemma {:induction false} RunTold(run: seq<Event>)
    requires Possible(START, run)
    ensures AllTold(run, After(START, run))
  {
    if run != [] {
      var earlier, e := run[..|run| - 1], run[|run| - 1];
      assert earlier + [e] == run;
      LastStep(START, earlier, e);
      RunTold(earlier);
      StepTold(earlier, After(START, earlier), e);
    }
  }

  /**
   The wait of a request is measured from its first lock, however often it has
   slept since; its nap from its last sleep. A 503 reports the time between its
   first lock and its refusal, and the load at that moment.
   */
  lemma WaitIsMeasured(run: seq<Event>, r: Request)
    requires Possible(START, run) && r in After(START, run).requests
    ensures After(START, run).now == Clock(run) && After(START, run).active == Load(run)
    ensures Told(run, r, After(START, run).requests[r])
  {
    RunTold(run);
  }

  /**
   What a request at the head of its loop does next is decided by the run: it is
   admitted exactly when there is room, sleeps exactly when there is none and it
   has waited at most five seconds, and is refused exactly when it has waited more.
   */
  lemma DecidedByTheRun(run: seq<Event>, r: Request)
    requires Possible(START, run) && r in After(START, run).requests && After(START, run).requests[r].Checking?
    ensures LimitIn(run, r).Some? && FirstLock(run, r).Some?
    ensures var s, limit, waited := After(START, run), LimitIn(run, r).value, Clock(run) - FirstLock(run, r).value;
      && (Enabled(s, Admit(r)) <==> Load(run) < limit)
      && (Enabled(s, Sleep(r)) <==> Load(run) >= limit && waited <= 5.0)
      && (Enabled(s, Refuse(r)) <==> Load(run) >= limit && waited > 5.0)
  {
    RunTold(run);
  }

  /** An un-notified sleeper gives up exactly one second after it fell asleep, never more than six after its first lock. */
  lemma NapsEnd(run: seq<Event>, r: Request)
    requires Possible(START, run) && r in After(START, run).requests && After(START, run).requests[r].Asleep?
    ensures FirstLock(run, r).Some? && LastTime(run, Sleep(r)).Some?
    ensures LastTime(run, Sleep(r)).value <= FirstLock(run, r).value + 5.0
    ensures Enabled(After(START, run), TimeOut(r)) <==>
            Dormant(After(START, run).requests[r]) && Clock(run) >= LastTime(run, Sleep(r)).value + 1.0
    ensures Clock(run) >= FirstLock(run, r).value + 6.0 ==> Enabled(After(START, run), TimeOut(r)) || Enabled(After(START, run), Hear(r))
  {
    RunTold(run);
    RunKeepsInv(START, run);
  }

  /** A 503 comes more than five seconds after the request's first lock, and reports a load at or above its limit. */
  lemma RefusedOnlyWhenFull(run: seq<Event>, r: Request)
    requires Possible(START, run) && r in After(START, run).requests && After(START, run).requests[r].Rejected?
    ensures FirstLock(run, r).Some? && LastTime(run, Refuse(r)).Some? && LimitIn(run, r).Some?
    ensures LastTime(run, Refuse(r)).value - FirstLock(run, r).value > 5.0
    ensures var p := After(START, run).requests[r];
      p.active == LoadAt(run, Refuse(r)) >= LimitIn(run, r).value == p.limit
  {
    RunTold(run);
    RunKeepsInv(START, run);
  }
}
