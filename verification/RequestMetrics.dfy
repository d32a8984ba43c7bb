/**
 The request metrics collector: statistics per endpoint, and per load-test stage
 and endpoint, each with a sample window bounded by `maxSamples`.
 */
module RequestMetrics {
  import opened Wrappers
  import opened Windows
  import opened MapSums
  import opened DivMod

  datatype Endpoint = Endpoint(
    count: nat, success: nat, failure: nat,
    error4xx: nat, error5xx: nat, errorException: nat,
    samples: seq<real>)

  const NEW_ENDPOINT := Endpoint(0, 0, 0, 0, 0, 0, [])

  datatype Request = Request(name: string, time: real, status: Option<int>, error: Option<string>, stage: string)

  type Endpoints = map<string, Endpoint>

  datatype State = State(
    stats: Endpoints,
    stageStats: map<string, Endpoints>,
    requestCount: nat)

  const EMPTY := State(map[], map[], 0)

  // ----- one endpoint

  /** `s[start:]` in Python, for any integer start. */
  function SliceFrom(s: seq<real>, start: int): seq<real> {
    if start >= 0 then (if start <= |s| then s[start..] else [])
    else if -start <= |s| then s[|s| + start..] else s
  }

  /** `-maxSamples // 2` in Python: floor division of the negated limit. */
  function TrimStart(maxSamples: int): int { (-maxSamples) / 2 }

  function AddSample(maxSamples: int, w: seq<real>, time: real): seq<real> {
    (if |w| >= maxSamples then SliceFrom(w, TrimStart(maxSamples)) else w) + [time]
  }

  datatype Class = Exception | Server | Client | Success

  function Classify(r: Request): Class {
    if r.error.Some? && r.error.value != "" then Exception
    else if r.status.Some? && r.status.value != 0 then
      (if r.status.value >= 500 then Server else if r.status.value >= 400 then Client else Success)
    else Success
  }

  function Add(maxSamples: int, e: Endpoint, r: Request): Endpoint {
    var e1 := e.(count := e.count + 1, samples := AddSample(maxSamples, e.samples, r.time));
    match Classify(r)
    case Exception => e1.(failure := e1.failure + 1, errorException := e1.errorException + 1)
    case Server => e1.(failure := e1.failure + 1, error5xx := e1.error5xx + 1)
    case Client => e1.(failure := e1.failure + 1, error4xx := e1.error4xx + 1)
    case Success => e1.(success := e1.success + 1)
  }

  function At(es: Endpoints, name: string): Endpoint { if name in es then es[name] else NEW_ENDPOINT }
  function StageAt(st: State, stage: string): Endpoints { if stage in st.stageStats then st.stageStats[stage] else map[] }

  function Step(maxSamples: int, st: State, r: Request): State {
    State(
      st.stats[r.name := Add(maxSamples, At(st.stats, r.name), r)],
      if r.stage == "" then st.stageStats
      else
        var es := StageAt(st, r.stage);
        st.stageStats[r.stage := es[r.name := Add(maxSamples, At(es, r.name), r)]],
      st.requestCount + 1)
  }

  /** The requests since the collector was created or last reset. */
  function Run(maxSamples: int, log: seq<Request>): State {
    if log == [] then EMPTY else Step(maxSamples, Run(maxSamples, log[..|log| - 1]), log[|log| - 1])
  }

  // ----- the sample window

  function Window(maxSamples: int, history: seq<real>): seq<real> {
    if history == [] then [] else AddSample(maxSamples, Window(maxSamples, history[..|history| - 1]), history[|history| - 1])
  }

  ghost predicate Suffix(w: seq<real>, history: seq<real>) {
    |w| <= |history| && w == history[|history| - |w|..]
  }

  lemma SliceIsSuffix(w: seq<real>, start: int)
    ensures Suffix(SliceFrom(w, start), w)
  {
  }

  lemma SuffixGrows(w: seq<real>, v: seq<real>, history: seq<real>, x: real)
    requires Suffix(w, v) && Suffix(v, history)
    ensures Suffix(w + [x], history + [x])
  {
    assert w == v[|v| - |w|..] == history[|history| - |w|..];
  }

  lemma {:induction false} AddKeepsSuffix(maxSamples: int, w: seq<real>, history: seq<real>, x: real)
    requires Suffix(w, history)
    ensures Suffix(AddSample(maxSamples, w, x), history + [x]) && AddSample(maxSamples, w, x) != []
  {
    var sliced := SliceFrom(w, TrimStart(maxSamples));
    SliceIsSuffix(w, TrimStart(maxSamples));
    SuffixGrows(sliced, w, history, x);
    SuffixGrows(w, w, history, x);
  }

  /** For every limit the window is a suffix of the history, and includes the latest sample. */
  lemma {:induction false} WindowIsSuffix(maxSamples: int, history: seq<real>)
    ensures Suffix(Window(maxSamples, history), history)
    ensures history != [] ==> Window(maxSamples, history) != []
  {
    if history != [] {
      var earlier, x := history[..|history| - 1], history[|history| - 1];
      WindowIsSuffix(maxSamples, earlier);
      AddKeepsSuffix(maxSamples, Window(maxSamples, earlier), earlier, x);
      assert earlier + [x] == history;
    }
  }

  /** Length of the window after n samples: it grows to the limit, then cycles through the upper half. */
  function WindowLength(maxSamples: nat, n: nat): nat
    requires maxSamples >= 2
  {
    if n <= maxSamples then n
    else (maxSamples + 1) / 2 + 1 + (n - maxSamples - 1) % (maxSamples / 2)
  }

  /** One more sample moves the length along its cycle. */
  lemma WindowLengthStep(maxSamples: nat, n: nat)
    requires maxSamples >= 2
    ensures WindowLength(maxSamples, n) <= maxSamples
    ensures WindowLength(maxSamples, n + 1) ==
            if WindowLength(maxSamples, n) == maxSamples then (maxSamples + 1) / 2 + 1 else WindowLength(maxSamples, n) + 1
  {
    var d := maxSamples / 2;
    assert (maxSamples + 1) / 2 + d == maxSamples && d > 0;
    if n > maxSamples {
      CycleStep(d, n - maxSamples - 1);
    } else if n == maxSamples {
      CycleStart(d);
    }
  }

  lemma CycleStart(d: nat)
    requires d > 0
    ensures 0 % d == 0
  {
  }

  lemma CycleStep(d: nat, k: nat)
    requires d > 0
    ensures k % d < d
    ensures (k + 1) % d == if k % d == d - 1 then 0 else k % d + 1
  {
    DivModStep(d, k);
  }

  lemma {:induction false} WindowLengthIs(maxSamples: nat, history: seq<real>)
    requires maxSamples >= 2
    ensures |Window(maxSamples, history)| == WindowLength(maxSamples, |history|)
  {
    if history != [] {
      var n := |history| - 1;
      WindowLengthIs(maxSamples, history[..n]);
      WindowLengthStep(maxSamples, n);
      assert TrimStart(maxSamples) == -((maxSamples + 1) / 2);
    }
  }

  /**
   For every limit of at least 2 the window is the most recent part of the
   history, never longer than the limit, and once trimmed never shorter than
   half of it (rounded up) plus one.
   */
  lemma {:induction false} WindowAgreesWithHistory(maxSamples: nat, history: seq<real>)
    requires maxSamples >= 2
    ensures Window(maxSamples, history) == Last(history, WindowLength(maxSamples, |history|))
    ensures |Window(maxSamples, history)| <= maxSamples
    ensures |history| > maxSamples ==> |Window(maxSamples, history)| >= (maxSamples + 1) / 2 + 1
  {
    WindowIsSuffix(maxSamples, history);
    WindowLengthIs(maxSamples, history);
  }

  /** For limits below 2 the length is as exact: two for a limit of 1, everything for 0 and -1, one below that. */
  lemma {:induction false} SmallLimits(maxSamples: int, history: seq<real>)
    requires maxSamples < 2
    ensures var n := |history|;
      |Window(maxSamples, history)| ==
      if maxSamples == 1 then (if n <= 2 then n else 2)
      else if maxSamples >= -1 then n
      else if n <= 1 then n else 1
  {
    if history != [] {
      SmallLimits(maxSamples, history[..|history| - 1]);
      SmallTrim(maxSamples);
    }
  }

  lemma SmallTrim(maxSamples: int)
    requires maxSamples < 2
    ensures maxSamples == 1 ==> TrimStart(maxSamples) == -1
    ensures maxSamples == 0 || maxSamples == -1 ==> TrimStart(maxSamples) == 0
    ensures maxSamples <= -2 ==> TrimStart(maxSamples) >= 1
  {
  }

  /** The bound holds for every history exactly when the limit is at least 2. */
  lemma {:induction false} BoundExactly(maxSamples: int)
    ensures (forall history :: |Window(maxSamples, history)| <= maxSamples) <==> maxSamples >= 2
  {
    if maxSamples >= 2 {
      forall history ensures |Window(maxSamples, history)| <= maxSamples { WindowAgreesWithHistory(maxSamples, history); }
    } else {
      assert [0.0, 0.0][..1] == [0.0] && [0.0][..0] == [];
      assert Window(maxSamples, [0.0]) == [0.0];
      assert maxSamples == 1 ==> |Window(maxSamples, [0.0, 0.0])| == 2;
    }
  }

  // ----- every endpoint against the requests made to it

  predicate Balanced(e: Endpoint) {
    e.count == e.success + e.failure && e.failure == e.error4xx + e.error5xx + e.errorException
  }

  /** An endpoint fed with the given requests only. */
  function Fed(maxSamples: int, requests: seq<Request>): Endpoint {
    if requests == [] then NEW_ENDPOINT else Add(maxSamples, Fed(maxSamples, requests[..|requests| - 1]), requests[|requests| - 1])
  }

  function Times(requests: seq<Request>): seq<real> {
    seq(|requests|, i requires 0 <= i < |requests| => requests[i].time)
  }

  function Tally(requests: seq<Request>, c: Class): nat {
    if requests == [] then 0 else Tally(requests[..|requests| - 1], c) + if Classify(requests[|requests| - 1]) == c then 1 else 0
  }

  function CountOf(e: Endpoint, c: Class): nat {
    match c case Exception => e.errorException case Server => e.error5xx case Client => e.error4xx case Success => e.success
  }

  lemma AddCounts(maxSamples: int, e: Endpoint, r: Request, c: Class)
    ensures var e' := Add(maxSamples, e, r);
      && CountOf(e', c) == CountOf(e, c) + (if Classify(r) == c then 1 else 0)
      && e'.count == e.count + 1 && (Balanced(e) ==> Balanced(e'))
  {
  }

  lemma {:induction false} FedCounts(maxSamples: int, requests: seq<Request>, c: Class)
    ensures var e := Fed(maxSamples, requests);
      e.count == |requests| && Balanced(e) && CountOf(e, c) == Tally(requests, c)
  {
    if requests != [] {
      FedCounts(maxSamples, requests[..|requests| - 1], c);
      AddCounts(maxSamples, Fed(maxSamples, requests[..|requests| - 1]), requests[|requests| - 1], c);
    }
  }

  function CountWhere(requests: seq<Request>, p: Request -> bool): nat {
    if requests == [] then 0 else CountWhere(requests[..|requests| - 1], p) + if p(requests[|requests| - 1]) then 1 else 0
  }

  predicate HasError(r: Request) { r.error.Some? && r.error.value != "" }
  predicate Has500(r: Request) { !HasError(r) && r.status.Some? && r.status.value >= 500 }
  predicate Has400(r: Request) { !HasError(r) && r.status.Some? && 400 <= r.status.value < 500 }
  predicate HasNone(r: Request) { !HasError(r) && (r.status.None? || r.status.value < 400) }

  lemma {:induction false} FedWhere(maxSamples: int, requests: seq<Request>, c: Class, p: Request -> bool)
    requires forall r :: p(r) <==> Classify(r) == c
    ensures CountOf(Fed(maxSamples, requests), c) == CountWhere(requests, p)
  {
    FedCounts(maxSamples, requests, c);
    TallyIs(requests, c, p);
  }

  lemma {:induction false} TallyIs(requests: seq<Request>, c: Class, p: Request -> bool)
    requires forall r :: p(r) <==> Classify(r) == c
    ensures Tally(requests, c) == CountWhere(requests, p)
  {
    if requests != [] { TallyIs(requests[..|requests| - 1], c, p); }
  }

  /** The counters by what was in the requests: an error message, a status of 500 and up, one from 400 to 499, or none of these. */
  lemma {:induction false} FedByContent(maxSamples: int, requests: seq<Request>)
    ensures Fed(maxSamples, requests).errorException == CountWhere(requests, HasError)
    ensures Fed(maxSamples, requests).error5xx == CountWhere(requests, Has500)
    ensures Fed(maxSamples, requests).error4xx == CountWhere(requests, Has400)
    ensures Fed(maxSamples, requests).success == CountWhere(requests, HasNone)
  {
    FedWhere(maxSamples, requests, Exception, HasError);
    FedWhere(maxSamples, requests, Server, Has500);
    FedWhere(maxSamples, requests, Client, Has400);
    FedWhere(maxSamples, requests, Success, HasNone);
  }

  lemma {:induction false} FedSamples(maxSamples: int, requests: seq<Request>)
    ensures Fed(maxSamples, requests).samples == Window(maxSamples, Times(requests))
  {
    if requests != [] {
      var earlier := requests[..|requests| - 1];
      FedSamples(maxSamples, earlier);
      assert Times(requests)[..|requests| - 1] == Times(earlier);
    }
  }

  /** The requests of a log made to an endpoint. */
  function To(log: seq<Request>, name: string): seq<Request> {
    if log == [] then [] else
      var earlier, r := To(log[..|log| - 1], name), log[|log| - 1];
      if r.name == name then earlier + [r] else earlier
  }

  /** The requests of a log made in a stage; the stage "" is no stage. */
  function In(log: seq<Request>, stage: string): seq<Request> {
    if log == [] then [] else
      var earlier, r := In(log[..|log| - 1], stage), log[|log| - 1];
      if r.stage == stage then earlier + [r] else earlier
  }

  lemma FedSnoc(maxSamples: int, requests: seq<Request>, r: Request)
    ensures Fed(maxSamples, requests + [r]) == Add(maxSamples, Fed(maxSamples, requests), r)
  {
    assert (requests + [r])[..|requests + [r]| - 1] == requests;
  }

  lemma ToSnoc(log: seq<Request>, r: Request, name: string)
    ensures To(log + [r], name) == if r.name == name then To(log, name) + [r] else To(log, name)
  {
    assert (log + [r])[..|log + [r]| - 1] == log;
  }

  /** Globally, an endpoint has seen exactly the requests to it. */
  lemma {:induction false} GlobalAgrees(maxSamples: int, log: seq<Request>, name: string)
    ensures At(Run(maxSamples, log).stats, name) == Fed(maxSamples, To(log, name))
    ensures name in Run(maxSamples, log).stats <==> To(log, name) != []
  {
    if log != [] {
      var earlier, r := log[..|log| - 1], log[|log| - 1];
      GlobalAgrees(maxSamples, earlier, name);
      if r.name == name { FedSnoc(maxSamples, To(earlier, name), r); }
    }
  }

  /** Within a stage, exactly the requests to it made in that stage. */
  lemma {:induction false} StageAgrees(maxSamples: int, log: seq<Request>, stage: string, name: string)
    requires stage != ""
    ensures At(StageAt(Run(maxSamples, log), stage), name) == Fed(maxSamples, To(In(log, stage), name))
  {
    if log != [] {
      var earlier, r := log[..|log| - 1], log[|log| - 1];
      StageAgrees(maxSamples, earlier, stage, name);
      if r.stage == stage {
        ToSnoc(In(earlier, stage), r, name);
        if r.name == name { FedSnoc(maxSamples, To(In(earlier, stage), name), r); }
      }
    }
  }

  // ----- conservation across the maps

  ghost function Counts(es: Endpoints): map<string, int> { map n | n in es :: es[n].count }

  ghost function StageCounts(st: State, name: string): map<string, int> {
    map g | g in st.stageStats :: At(st.stageStats[g], name).count
  }

  /** The request total is the sum of the endpoint counts. */
  lemma {:induction false} RequestsConserved(maxSamples: int, log: seq<Request>)
    ensures Run(maxSamples, log).requestCount == |log| == Total(Counts(Run(maxSamples, log).stats))
  {
    if log != [] {
      var earlier, r := log[..|log| - 1], log[|log| - 1];
      RequestsConserved(maxSamples, earlier);
      var es, es' := Run(maxSamples, earlier).stats, Run(maxSamples, log).stats;
      TotalUpdate(Counts(es), r.name, es'[r.name].count);
      assert Counts(es') == Counts(es)[r.name := es'[r.name].count];
    }
  }

  lemma {:induction false} StageStep(maxSamples: int, st: State, r: Request, name: string)
    ensures Total(StageCounts(Step(maxSamples, st, r), name)) ==
            Total(StageCounts(st, name)) + if r.stage != "" && r.name == name then 1 else 0
  {
    var st' := Step(maxSamples, st, r);
    if r.stage == "" {
      assert StageCounts(st', name) == StageCounts(st, name);
    } else {
      var v := At(st'.stageStats[r.stage], name).count;
      TotalUpdate(StageCounts(st, name), r.stage, v);
      assert StageCounts(st', name) == StageCounts(st, name)[r.stage := v];
    }
  }

  lemma GlobalCountStep(maxSamples: int, st: State, r: Request, name: string)
    ensures At(Step(maxSamples, st, r).stats, name).count == At(st.stats, name).count + if r.name == name then 1 else 0
  {
    AddCounts(maxSamples, At(st.stats, r.name), r, Success);
  }

  lemma {:induction false} OutsideStages(log: seq<Request>, name: string)
    requires log != []
    ensures var r := log[|log| - 1];
      |To(In(log, ""), name)| == |To(In(log[..|log| - 1], ""), name)| + if r.stage == "" && r.name == name then 1 else 0
  {
    var earlier, r := log[..|log| - 1], log[|log| - 1];
    if r.stage == "" { ToSnoc(In(earlier, ""), r, name); }
  }

  /** For each endpoint the per-stage counts add up to the global count less the requests made outside any stage. */
  lemma {:induction false} StagesConserved(maxSamples: int, log: seq<Request>, name: string)
    ensures Total(StageCounts(Run(maxSamples, log), name)) ==
            At(Run(maxSamples, log).stats, name).count - |To(In(log, ""), name)|
  {
    if log == [] {
      assert StageCounts(EMPTY, name) == map[];
    } else {
      var before, r := Run(maxSamples, log[..|log| - 1]), log[|log| - 1];
      StagesConserved(maxSamples, log[..|log| - 1], name);
      StageStep(maxSamples, before, r, name);
      GlobalCountStep(maxSamples, before, r, name);
      OutsideStages(log, name);
    }
  }

  // ----- the collector object

  class MetricsCollector {
    const maxSamples: int
    var stats: Endpoints
    var stageStats: map<string, Endpoints>
    var requestCount: nat

    ghost function View(): State
      reads this
    {
      State(stats, stageStats, requestCount)
    }

    constructor (limit: int)
      ensures maxSamples == limit && View() == EMPTY
    {
      maxSamples := limit;
      stats, stageStats, requestCount := map[], map[], 0;
    }

    /** The updated statistics object. */
    method RecordToStats(e: Endpoint, time: real, status: Option<int>, error: Option<string>) returns (updated: Endpoint)
      ensures forall name, stage :: updated == Add(maxSamples, e, Request(name, time, status, error, stage))
    {
      updated := e.(count := e.count + 1);
      if |updated.samples| >= maxSamples {
        updated := updated.(samples := SliceFrom(updated.samples, TrimStart(maxSamples)));
      }
      updated := updated.(samples := updated.samples + [time]);
      if error.Some? && error.value != "" {
        updated := updated.(failure := updated.failure + 1, errorException := updated.errorException + 1);
      } else if status.Some? && status.value != 0 {
        if status.value >= 500 {
          updated := updated.(failure := updated.failure + 1, error5xx := updated.error5xx + 1);
        } else if status.value >= 400 {
          updated := updated.(failure := updated.failure + 1, error4xx := updated.error4xx + 1);
        } else {
          updated := updated.(success := updated.success + 1);
        }
      } else {
        updated := updated.(success := updated.success + 1);
      }
    }

    method RecordRequest(r: Request)
      modifies this
      ensures View() == Step(maxSamples, old(View()), r)
    {
      requestCount := requestCount + 1;
      var e := RecordToStats(At(stats, r.name), r.time, r.status, r.error);
      assert e == Add(maxSamples, At(stats, r.name), Request(r.name, r.time, r.status, r.error, r.stage));
      stats := stats[r.name := e];
      if r.stage != "" {
        var es := if r.stage in stageStats then stageStats[r.stage] else map[];
        var se := RecordToStats(At(es, r.name), r.time, r.status, r.error);
        assert se == Add(maxSamples, At(es, r.name), Request(r.name, r.time, r.status, r.error, r.stage));
        stageStats := stageStats[r.stage := es[r.name := se]];
      }
    }

    method Reset()
      modifies this
      ensures View() == EMPTY
    {
      stats, stageStats, requestCount := map[], map[], 0;
    }
  }
}
