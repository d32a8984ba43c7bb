/**
 The observability contract of the load tests: a trace per request, a guess at
 the pipeline stage of a failure, and counters by stage. Messages are compared
 after lowering ASCII letters; times are in seconds.
 */
module Observability {
  import opened Wrappers
  import opened MapSums

  datatype Stage = Unknown | Ingress | Validation | Auth | Business | Caching | Persistence | Async | Egress

  // ----- guessing a stage

  function FromStatus(code: int): Stage {
    if code == 429 then Ingress
    else if code == 400 then Validation
    else if code == 401 || code == 403 then Auth
    else if code == 422 then Business
    else if code == 503 then Ingress
    else if code == 504 then Egress
    else if 500 <= code < 600 then Persistence
    else Unknown
  }

  predicate Contains(text: string, word: string) {
    word <= text || (text != "" && Contains(text[1..], word))
  }

  function Lower(text: string): string {
    seq(|text|, i requires 0 <= i < |text| =>
      if 'A' <= text[i] <= 'Z' then ((text[i] as int) - ('A' as int) + ('a' as int)) as char else text[i])
  }

  datatype Row = Row(words: seq<string>, stage: Stage)

  /** Keywords in order of precedence. */
  const KEYWORDS: seq<Row> := [
    Row(["rate limit", "too many", "throttl", "overload"], Ingress),
    Row(["invalid", "required", "format", "schema", "missing field"], Validation),
    Row(["auth", "token", "jwt", "permission", "forbidden", "unauthorized"], Auth),
    Row(["insufficient", "not available", "out of stock", "conflict", "duplicate"], Business),
    Row(["cache", "redis", "memcache", "stale"], Caching),
    Row(["database", "db", "sql", "postgres", "mysql", "deadlock", "lock"], Persistence),
    Row(["celery", "task", "queue", "timeout", "async", "webhook"], Async),
    Row(["external", "api call", "gateway", "upstream"], Egress)]

  predicate Mentions(text: string, row: Row) { exists k :: 0 <= k < |row.words| && Contains(text, row.words[k]) }

  function FirstMatch(text: string, rows: seq<Row>): Stage {
    if rows == [] then Unknown
    else if Mentions(text, rows[0]) then rows[0].stage
    else FirstMatch(text, rows[1..])
  }

  function FromMessage(error: string): Stage { FirstMatch(Lower(error), KEYWORDS) }

  /** The guess is the first matching row; without any match there is no guess. */
  lemma {:induction false} FirstMatchIs(text: string, rows: seq<Row>, i: nat)
    requires i < |rows| && Mentions(text, rows[i]) && forall k :: 0 <= k < i ==> !Mentions(text, rows[k])
    ensures FirstMatch(text, rows) == rows[i].stage
  {
    if i > 0 {
      assert !Mentions(text, rows[0]);
      assert forall k :: 0 <= k < i - 1 ==> rows[1..][k] == rows[k + 1];
      FirstMatchIs(text, rows[1..], i - 1);
    }
  }

  lemma {:induction false} UnknownExactly(text: string, rows: seq<Row>)
    requires forall k :: 0 <= k < |rows| ==> rows[k].stage != Unknown
    ensures FirstMatch(text, rows) == Unknown <==> forall k :: 0 <= k < |rows| ==> !Mentions(text, rows[k])
  {
    if rows != [] {
      UnknownExactly(text, rows[1..]);
      assert forall k :: 1 <= k < |rows| ==> rows[k] == rows[1..][k - 1];
    }
  }

  /** The guess from a status, stage by stage. */
  lemma FromStatusExactly(code: int)
    ensures FromStatus(code) == Ingress <==> code in {429, 503}
    ensures FromStatus(code) == Validation <==> code == 400
    ensures FromStatus(code) == Auth <==> code in {401, 403}
    ensures FromStatus(code) == Business <==> code == 422
    ensures FromStatus(code) == Egress <==> code == 504
    ensures FromStatus(code) == Persistence <==> 500 <= code <= 599 && code !in {503, 504}
    ensures FromStatus(code) == Unknown <==> !(500 <= code <= 599) && code !in {400, 401, 403, 422, 429}
  {
  }

  lemma {:induction false} ContainsExactly(text: string, word: string)
    ensures Contains(text, word) <==> exists before: string, after: string :: text == before + word + after
  {
    if word <= text {
      assert text == "" + word + text[|word|..];
    } else if text != "" {
      ContainsExactly(text[1..], word);
      if before: string, after: string :| text[1..] == before + word + after {
        assert text == ([text[0]] + before) + word + after;
      }
      if before: string, after: string :| text == before + word + after {
        StartsLater(text, before, word, after);
      }
    }
  }

  lemma {:induction false} StartsLater(text: string, before: string, word: string, after: string)
    requires text == before + word + after && !(word <= text)
    ensures text != "" && text[1..] == before[1..] + word + after
  {
  }

  lemma LowerIs(text: string, i: nat)
    requires i < |text|
    ensures |Lower(text)| == |text|
    ensures 'A' <= text[i] <= 'Z' ==> Lower(text)[i] as int == text[i] as int + 32
    ensures !('A' <= text[i] <= 'Z') ==> Lower(text)[i] == text[i]
  {
  }

  /** The words that speak for a stage. */
  function WordsFor(stage: Stage): set<string> {
    match stage
    case Ingress => {"rate limit", "too many", "throttl", "overload"}
    case Validation => {"invalid", "required", "format", "schema", "missing field"}
    case Auth => {"auth", "token", "jwt", "permission", "forbidden", "unauthorized"}
    case Business => {"insufficient", "not available", "out of stock", "conflict", "duplicate"}
    case Caching => {"cache", "redis", "memcache", "stale"}
    case Persistence => {"database", "db", "sql", "postgres", "mysql", "deadlock", "lock"}
    case Async => {"celery", "task", "queue", "timeout", "async", "webhook"}
    case Egress => {"external", "api call", "gateway", "upstream"}
    case Unknown => {}
  }

  /** Earlier stages win. */
  function Rank(stage: Stage): nat {
    match stage
    case Ingress => 0 case Validation => 1 case Auth => 2 case Business => 3
    case Caching => 4 case Persistence => 5 case Async => 6 case Egress => 7 case Unknown => 8
  }

  ghost predicate SpeaksFor(text: string, stage: Stage) { exists w :: w in WordsFor(stage) && Contains(text, w) }

  lemma KeywordsAre(stage: Stage)
    requires stage != Unknown
    ensures |KEYWORDS| == 8 && KEYWORDS[Rank(stage)].stage == stage
    ensures forall w :: w in KEYWORDS[Rank(stage)].words <==> w in WordsFor(stage)
  {
  }

  lemma {:induction false} MentionsExactly(text: string, stage: Stage)
    requires stage != Unknown
    ensures |KEYWORDS| == 8 && (Mentions(text, KEYWORDS[Rank(stage)]) <==> SpeaksFor(text, stage))
  {
    KeywordsAre(stage);
    MentionsWords(text, KEYWORDS[Rank(stage)], WordsFor(stage));
  }

  lemma {:induction false} MentionsWords(text: string, row: Row, words: set<string>)
    requires forall w :: w in row.words <==> w in words
    ensures Mentions(text, row) <==> exists w :: w in words && Contains(text, w)
  {
    if k :| 0 <= k < |row.words| && Contains(text, row.words[k]) { assert row.words[k] in row.words; }
    if w :| w in words && Contains(text, w) {
      var k :| 0 <= k < |row.words| && row.words[k] == w;
    }
  }

  /** The guess from a message: the first stage, in order, for which one of its words occurs in the lowered message. */
  lemma {:induction false} GuessExactly(error: string, stage: Stage)
    ensures FromMessage(error) == stage <==>
      && (stage != Unknown ==> SpeaksFor(Lower(error), stage))
      && (forall other :: Rank(other) < Rank(stage) ==> !SpeaksFor(Lower(error), other))
  {
    var text := Lower(error);
    forall other | other != Unknown ensures Mentions(text, KEYWORDS[Rank(other)]) <==> SpeaksFor(text, other) {
      MentionsExactly(text, other);
    }
    var found := FromMessage(error);
    if found == Unknown {
      KeywordsKnown();
      UnknownExactly(text, KEYWORDS);
    } else {
      FoundFirst(text, found);
    }
  }

  lemma KeywordsKnown()
    ensures |KEYWORDS| == 8 && forall k :: 0 <= k < 8 ==> KEYWORDS[k].stage != Unknown && Rank(KEYWORDS[k].stage) == k
  {
  }

  lemma {:induction false} FoundFirst(text: string, stage: Stage)
    requires FirstMatch(text, KEYWORDS) == stage != Unknown
    ensures SpeaksFor(text, stage) && forall other :: Rank(other) < Rank(stage) ==> !SpeaksFor(text, other)
  {
    KeywordsKnown();
    UnknownExactly(text, KEYWORDS);
    var i := FirstIndex(text, KEYWORDS);
    FirstMatchIs(text, KEYWORDS, i);
    MentionsExactly(text, stage);
    forall other | Rank(other) < Rank(stage) ensures !SpeaksFor(text, other) { MentionsExactly(text, other); }
  }

  lemma {:induction false} FirstIndex(text: string, rows: seq<Row>) returns (i: nat)
    requires exists k :: 0 <= k < |rows| && Mentions(text, rows[k])
    ensures i < |rows| && Mentions(text, rows[i]) && forall k :: 0 <= k < i ==> !Mentions(text, rows[k])
  {
    if Mentions(text, rows[0]) {
      i := 0;
    } else {
      var k :| 0 <= k < |rows| && Mentions(text, rows[k]);
      assert rows[1..][k - 1] == rows[k];
      i := FirstIndex(text, rows[1..]);
      assert forall k :: 1 <= k < |rows| ==> rows[k] == rows[1..][k - 1];
      i := i + 1;
    }
  }

  // ----- a trace

  datatype Trace = Trace(
    startTime: real,
    endTime: Option<real>,
    current: Stage,
    final: Stage,
    status: Option<int>,
    isFailure: bool,
    error: Option<string>,
    stageLog: seq<(Stage, Stage)>)

  function NewTrace(start: real): Trace { Trace(start, None, Ingress, Unknown, None, false, None, []) }

  /** What the traced block does with its trace. */
  datatype Action =
    | SetStage(stage: Stage)
    | Succeed(code: int, at: real)
    | Fail(error: string, status: Option<int>, at: real)

  /** How the block ends: normally, by an Exception, or by something that is not an Exception. */
  datatype Exit = Returns | Raises(message: string) | Interrupted

  /** The stage a failure is charged to, given the stage it happened in. */
  function Charge(stage: Stage, error: string, status: Option<int>): Stage {
    if stage != Unknown then stage else
      var byStatus := if status.Some? && status.value != 0 then FromStatus(status.value) else Unknown;
      if byStatus == Unknown && error != "" then FromMessage(error) else byStatus
  }

  function Do(t: Trace, a: Action): Trace {
    match a
    case SetStage(stage) => t.(current := stage, stageLog := t.stageLog + [(t.current, stage)])
    case Succeed(status, at) => t.(endTime := Some(at), status := Some(status), isFailure := false, final := t.current)
    case Fail(error, status, at) =>
      t.(endTime := Some(at), status := status, isFailure := true, error := Some(error), final := Charge(t.current, error, status))
  }

  function DoAll(t: Trace, body: seq<Action>): Trace {
    if body == [] then t else Do(DoAll(t, body[..|body| - 1]), body[|body| - 1])
  }

  /** The end of a traced block: an Exception counts as a failure unless an outcome was recorded before. */
  function Close(t: Trace, exit: Exit, at: real): Trace {
    var t1 := if exit.Raises? && !t.isFailure && t.endTime.None? then Do(t, Fail(exit.message, None, at)) else t;
    if t1.endTime.None? then t1.(endTime := Some(at)) else t1
  }

  function TraceRequest(start: real, body: seq<Action>, exit: Exit, end: real): Trace {
    Close(DoAll(NewTrace(start), body), exit, end)
  }

  // ----- the collected metrics

  const MAX_TRACES := 10000

  datatype Metrics = Metrics(
    total: nat, failures: nat, successes: nat,
    untraced: nat, unknown: nat,
    byStage: map<Stage, int>,
    traces: seq<Trace>)

  const EMPTY := Metrics(0, 0, 0, 0, 0, map[], [])

  function RecordTrace(m: Metrics, t: Trace): Metrics {
    var m1 :=
      if t.isFailure then
        m.(total := m.total + 1, failures := m.failures + 1,
           byStage := m.byStage[t.final := Or0(m.byStage, t.final) + 1],
           unknown := m.unknown + if t.final == Unknown then 1 else 0)
      else m.(total := m.total + 1, successes := m.successes + 1);
    if |m.traces| < MAX_TRACES then m1.(traces := m.traces + [t]) else m1
  }

  datatype Event =
    | Traced(start: real, body: seq<Action>, exit: Exit, end: real)
    | Untraced
    | Reset

  function TraceOf(e: Event): Trace
    requires e.Traced?
  {
    TraceRequest(e.start, e.body, e.exit, e.end)
  }

  function Step(m: Metrics, e: Event): Metrics {
    match e
    case Traced(_, _, _, _) => RecordTrace(m, TraceOf(e))
    case Untraced => m.(untraced := m.untraced + 1, failures := m.failures + 1, total := m.total + 1)
    case Reset => EMPTY
  }

  function Run(log: seq<Event>): Metrics {
    if log == [] then EMPTY else Step(Run(log[..|log| - 1]), log[|log| - 1])
  }

  // ----- what the metrics say about the whole log

  /** The traces of the log since the last reset, in order. */
  function TracesOf(log: seq<Event>): seq<Trace> {
    if log == [] then [] else
      var e, earlier := log[|log| - 1], TracesOf(log[..|log| - 1]);
      if e.Reset? then [] else if e.Untraced? then earlier else earlier + [TraceOf(e)]
  }

  function UntracedIn(log: seq<Event>): nat {
    if log == [] then 0 else
      var e, earlier := log[|log| - 1], UntracedIn(log[..|log| - 1]);
      if e.Reset? then 0 else if e.Untraced? then earlier + 1 else earlier
  }

  function FailuresAt(traces: seq<Trace>, stage: Stage): nat {
    if traces == [] then 0 else
      FailuresAt(traces[..|traces| - 1], stage) +
      if traces[|traces| - 1].isFailure && traces[|traces| - 1].final == stage then 1 else 0
  }

  function FailuresIn(traces: seq<Trace>): nat {
    if traces == [] then 0 else FailuresIn(traces[..|traces| - 1]) + if traces[|traces| - 1].isFailure then 1 else 0
  }

  lemma FailuresAtSnoc(traces: seq<Trace>, t: Trace, stage: Stage)
    ensures FailuresAt(traces + [t], stage) == FailuresAt(traces, stage) + if t.isFailure && t.final == stage then 1 else 0
    ensures FailuresIn(traces + [t]) == FailuresIn(traces) + if t.isFailure then 1 else 0
  {
    assert (traces + [t])[..|traces + [t]| - 1] == traces;
  }

  ghost predicate Counted(m: Metrics, traces: seq<Trace>, untraced: nat) {
    && m.total == |traces| + untraced && m.untraced == untraced
    && m.failures == FailuresIn(traces) + untraced
    && m.total == m.successes + m.failures
  }

  lemma RecordCounts(m: Metrics, traces: seq<Trace>, untraced: nat, t: Trace)
    requires Counted(m, traces, untraced)
    ensures Counted(RecordTrace(m, t), traces + [t], untraced)
  {
    FailuresAtSnoc(traces, t, Unknown);
  }

  /** Every traced request is counted once, whichever way it ended. */
  lemma {:induction false} CountedOnce(log: seq<Event>)
    ensures Counted(Run(log), TracesOf(log), UntracedIn(log))
  {
    if log != [] {
      var earlier, e := log[..|log| - 1], log[|log| - 1];
      CountedOnce(earlier);
      if e.Traced? { RecordCounts(Run(earlier), TracesOf(earlier), UntracedIn(earlier), TraceOf(e)); }
    }
  }

  function First(traces: seq<Trace>): seq<Trace> { if |traces| <= MAX_TRACES then traces else traces[..MAX_TRACES] }

  lemma {:induction false} RecordKeepsFirst(m: Metrics, traces: seq<Trace>, t: Trace)
    requires m.traces == First(traces)
    ensures RecordTrace(m, t).traces == First(traces + [t])
  {
  }

  /** The stored traces are the first ten thousand. */
  lemma {:induction false} FirstTracesKept(log: seq<Event>)
    ensures var traces := TracesOf(log); Run(log).traces == if |traces| <= 10000 then traces else traces[..10000]
  {
    if log != [] {
      var earlier, e := log[..|log| - 1], log[|log| - 1];
      FirstTracesKept(earlier);
      if e.Traced? { RecordKeepsFirst(Run(earlier), TracesOf(earlier), TraceOf(e)); }
    }
  }

  lemma RecordCharges(m: Metrics, t: Trace, stage: Stage)
    ensures Or0(RecordTrace(m, t).byStage, stage) == Or0(m.byStage, stage) + if t.isFailure && t.final == stage then 1 else 0
    ensures RecordTrace(m, t).unknown == m.unknown + if t.isFailure && t.final == Unknown then 1 else 0
  {
  }

  /** Each stage entry counts the failures charged to that stage. */
  lemma {:induction false} ChargedByStage(log: seq<Event>, stage: Stage)
    ensures Or0(Run(log).byStage, stage) == FailuresAt(TracesOf(log), stage)
  {
    if log != [] {
      var earlier, e := log[..|log| - 1], log[|log| - 1];
      ChargedByStage(earlier, stage);
      if e.Traced? {
        var t := TraceOf(e);
        FailuresAtSnoc(TracesOf(earlier), t, stage);
        RecordCharges(Run(earlier), t, stage);
      }
    }
  }

  /** The unknown counter is the unknown entry. */
  lemma {:induction false} UnknownCounter(log: seq<Event>)
    ensures Run(log).unknown == Or0(Run(log).byStage, Unknown)
  {
    if log != [] {
      var earlier, e := log[..|log| - 1], log[|log| - 1];
      UnknownCounter(earlier);
      if e.Traced? { RecordCharges(Run(earlier), TraceOf(e), Unknown); }
    }
  }

  /** Failures are exactly the failures by stage plus the untraced ones. */
  lemma {:induction false} FailuresConserved(log: seq<Event>)
    ensures Run(log).failures == Total(Run(log).byStage) + Run(log).untraced
  {
    if log != [] {
      var earlier, e := log[..|log| - 1], log[|log| - 1];
      FailuresConserved(earlier);
      if e.Traced? {
        var m, t := Run(earlier), TraceOf(e);
        if t.isFailure { TotalUpdate(m.byStage, t.final, Or0(m.byStage, t.final) + 1); }
      }
    }
  }

  // ----- what a single trace is charged with

  /** The stage in force after a block: the last one set, or ingress. */
  function StageAfter(body: seq<Action>): Stage {
    if body == [] then Ingress
    else if body[|body| - 1].SetStage? then body[|body| - 1].stage
    else StageAfter(body[..|body| - 1])
  }

  datatype Verdict = Open | Good | Bad(charged: Stage)

  /** The last outcome recorded in the block, if any. */
  function Outcome(body: seq<Action>): Verdict {
    if body == [] then Open else
      var earlier := body[..|body| - 1];
      match body[|body| - 1]
      case SetStage(_) => Outcome(earlier)
      case Succeed(_, _) => Good
      case Fail(error, status, _) => Bad(Charge(StageAfter(earlier), error, status))
  }

  lemma {:induction false} BodyOutcome(start: real, body: seq<Action>)
    ensures var t := DoAll(NewTrace(start), body);
      && t.current == StageAfter(body)
      && (t.endTime.None? <==> Outcome(body).Open?)
      && (t.isFailure <==> Outcome(body).Bad?)
      && (Outcome(body).Bad? ==> t.final == Outcome(body).charged)
  {
    if body != [] { BodyOutcome(start, body[..|body| - 1]); }
  }

  /** A trace is a failure exactly when its last outcome is one, or it has none and an Exception escaped. */
  lemma FailsExactly(start: real, body: seq<Action>, exit: Exit, end: real)
    ensures var t := TraceRequest(start, body, exit, end);
      && t.endTime.Some?
      && (t.isFailure <==> Outcome(body).Bad? || (Outcome(body).Open? && exit.Raises?))
      && (t.isFailure ==> t.final == if Outcome(body).Bad? then Outcome(body).charged
                                     else Charge(StageAfter(body), exit.message, None))
  {
    BodyOutcome(start, body);
  }

  /** The charge is unknown exactly when the stage was unknown and neither the status nor the message says anything. */
  lemma ChargeUnknownExactly(stage: Stage, error: string, status: Option<int>)
    ensures Charge(stage, error, status) == Unknown <==>
      && stage == Unknown
      && (status.Some? && status.value != 0 ==> FromStatus(status.value) == Unknown)
      && (forall k :: 0 <= k < |KEYWORDS| ==> error == "" || !Mentions(Lower(error), KEYWORDS[k]))
  {
    UnknownExactly(Lower(error), KEYWORDS);
  }

  /** Where a failure is charged: to its stage if that is known, else by its status, else by its message. */
  lemma ChargeExactly(stage: Stage, error: string, status: Option<int>)
    ensures stage != Unknown ==> Charge(stage, error, status) == stage
    ensures stage == Unknown && status.Some? && status.value != 0 && FromStatus(status.value) != Unknown ==>
              Charge(stage, error, status) == FromStatus(status.value)
    ensures stage == Unknown && (status.None? || status.value == 0 || FromStatus(status.value) == Unknown) ==>
              Charge(stage, error, status) == if error == "" then Unknown else FromMessage(error)
  {
  }

  /** The last recorded outcome, with the stage it was recorded in. */
  function LastOutcome(body: seq<Action>): Option<(Action, Stage)> {
    if body == [] then None
    else if body[|body| - 1].SetStage? then LastOutcome(body[..|body| - 1])
    else Some((body[|body| - 1], StageAfter(body[..|body| - 1])))
  }

  /** The message of the last recorded failure, even if a success was recorded after it. */
  function LastError(body: seq<Action>): Option<string> {
    if body == [] then None
    else if body[|body| - 1].Fail? then Some(body[|body| - 1].error)
    else LastError(body[..|body| - 1])
  }

  function StagesSet(body: seq<Action>): seq<Stage> {
    if body == [] then []
    else StagesSet(body[..|body| - 1]) + if body[|body| - 1].SetStage? then [body[|body| - 1].stage] else []
  }

  /** The transitions are a chain from ingress through the stages set, in order. */
  ghost predicate Chained(stageLog: seq<(Stage, Stage)>, stages: seq<Stage>) {
    && |stageLog| == |stages|
    && forall i {:trigger stageLog[i]} :: 0 <= i < |stages| ==> stageLog[i] == (Entering(stages, i), stages[i])
  }

  /** The stage in force before the i-th is set. */
  function Entering(stages: seq<Stage>, i: int): Stage
    requires 0 <= i <= |stages|
  {
    if i == 0 then Ingress else stages[i - 1]
  }

  lemma {:induction false} ChainedNext(stageLog: seq<(Stage, Stage)>, stages: seq<Stage>, stage: Stage)
    requires Chained(stageLog, stages)
    ensures Chained(stageLog + [(Entering(stages, |stages|), stage)], stages + [stage])
  {
    var log', stages' := stageLog + [(Entering(stages, |stages|), stage)], stages + [stage];
    forall i | 0 <= i < |stages'| ensures log'[i] == (Entering(stages', i), stages'[i]) {
      if i < |stages| { assert log'[i] == stageLog[i]; }
    }
  }

  ghost predicate Fields(t: Trace, start: real, body: seq<Action>) {
    && t.startTime == start && t.current == StageAfter(body)
    && t.error == LastError(body)
    && match LastOutcome(body)
       case None => t.endTime == None && t.status == None && !t.isFailure && t.final == Unknown
       case Some((Succeed(code, at), stage)) => t.endTime == Some(at) && t.status == Some(code) && !t.isFailure && t.final == stage
       case Some((Fail(error, status, at), stage)) =>
         t.endTime == Some(at) && t.status == status && t.isFailure && t.final == Charge(stage, error, status)
       case Some((SetStage(_), _)) => false
  }

  lemma {:induction false} BodyFields(start: real, body: seq<Action>)
    ensures Fields(DoAll(NewTrace(start), body), start, body)
  {
    if body != [] { BodyFields(start, body[..|body| - 1]); }
  }

  lemma {:induction false} StagesEnd(body: seq<Action>)
    ensures StageAfter(body) == if StagesSet(body) == [] then Ingress else StagesSet(body)[|StagesSet(body)| - 1]
  {
    if body != [] { StagesEnd(body[..|body| - 1]); }
  }

  lemma {:induction false} StageLogIs(start: real, body: seq<Action>)
    ensures Chained(DoAll(NewTrace(start), body).stageLog, StagesSet(body))
  {
    if body != [] {
      var earlier := body[..|body| - 1];
      StageLogIs(start, earlier);
      BodyFields(start, earlier);
      StagesEnd(earlier);
      if body[|body| - 1].SetStage? {
        ChainedNext(DoAll(NewTrace(start), earlier).stageLog, StagesSet(earlier), body[|body| - 1].stage);
      }
    }
  }

  /**
   Every field of a finished trace, from what its block did: if an outcome was
   recorded, the last one decides; if not, an escaping Exception is a failure at
   the end of the block, and any other exit leaves only the end time.
   */
  lemma {:induction false} TraceIs(start: real, body: seq<Action>, exit: Exit, end: real)
    ensures var t := TraceRequest(start, body, exit, end);
      && Chained(t.stageLog, StagesSet(body))
      && (LastOutcome(body).Some? ==> Fields(t, start, body))
      && (LastOutcome(body).None? ==>
            && t.startTime == start && t.current == StageAfter(body) && t.endTime == Some(end) && t.status == None
            && t.isFailure == exit.Raises?
            && t.error == (if exit.Raises? then Some(exit.message) else None)
            && t.final == if exit.Raises? then Charge(StageAfter(body), exit.message, None) else Unknown)
  {
    StageLogIs(start, body);
    BodyFields(start, body);
    if LastOutcome(body).None? { NoOutcomeNoError(body); }
  }

  lemma {:induction false} NoOutcomeNoError(body: seq<Action>)
    requires LastOutcome(body).None?
    ensures LastError(body).None?
  {
    if body != [] { NoOutcomeNoError(body[..|body| - 1]); }
  }

  lemma {:induction false} NeverSetNeverUnknown(body: seq<Action>)
    requires SetStage(Unknown) !in body
    ensures StageAfter(body) != Unknown && Outcome(body) != Bad(Unknown)
  {
    if body != [] {
      assert body[|body| - 1] in body;
      NeverSetNeverUnknown(body[..|body| - 1]);
    }
  }

  lemma {:induction false} NothingSetIngress(body: seq<Action>)
    requires forall a :: a in body ==> !a.SetStage?
    ensures StageAfter(body) == Ingress && (Outcome(body).Bad? ==> Outcome(body).charged == Ingress)
  {
    if body != [] {
      assert body[|body| - 1] in body;
      NothingSetIngress(body[..|body| - 1]);
    }
  }

  /** Only a block that sets the unknown stage itself can be charged to it; one that sets no stage is charged to ingress. */
  lemma UnknownMustBeSet(start: real, body: seq<Action>, exit: Exit, end: real)
    ensures var t := TraceRequest(start, body, exit, end);
      && (t.isFailure && t.final == Unknown ==> SetStage(Unknown) in body)
      && (t.isFailure && (forall a :: a in body ==> !a.SetStage?) ==> t.final == Ingress)
  {
    FailsExactly(start, body, exit, end);
    if SetStage(Unknown) !in body { NeverSetNeverUnknown(body); }
    if forall a :: a in body ==> !a.SetStage? { NothingSetIngress(body); }
  }

  /** The self-test expects this request to be counted as unknown; it is charged to ingress. */
  lemma MysteryErrorIsIngress(start: real, at: real)
    ensures var m := Run([Traced(start, [Fail("Mystery error", None, at)], Returns, at)]);
      m.unknown == 0 && Or0(m.byStage, Ingress) == 1
  {
    var fail := Fail("Mystery error", None, at);
    var e := Traced(start, [fail], Returns, at);
    assert [e][..0] == [] && [fail][..0] == [];
    assert DoAll(NewTrace(start), [fail]) == Do(NewTrace(start), fail);
  }

  // ----- the objects

  class TraceContext {
    var trace: Trace

    constructor (start: real)
      ensures trace == NewTrace(start)
    {
      trace := NewTrace(start);
    }

    method Set(stage: Stage)
      modifies this
      ensures trace == Do(old(trace), SetStage(stage))
    {
      var prev := trace.current;
      trace := trace.(current := stage);
      trace := trace.(stageLog := trace.stageLog + [(prev, stage)]);
    }

    method RecordSuccess(status: int, at: real)
      modifies this
      ensures trace == Do(old(trace), Succeed(status, at))
    {
      trace := trace.(endTime := Some(at), status := Some(status));
      trace := trace.(isFailure := false, final := trace.current);
    }

    method RecordFailure(error: string, status: Option<int>, at: real)
      modifies this
      ensures trace == Do(old(trace), Fail(error, status, at))
    {
      trace := trace.(endTime := Some(at), status := status, isFailure := true, error := Some(error));
      trace := trace.(final := trace.current);
      if trace.final == Unknown {
        if status.Some? && status.value != 0 {
          trace := trace.(final := FromStatus(status.value));
        }
        if trace.final == Unknown && error != "" {
          trace := trace.(final := FromMessage(error));
        }
      }
    }
  }

  class ObservabilityMetrics {
    var metrics: Metrics

    constructor ()
      ensures metrics == EMPTY
    {
      metrics := EMPTY;
    }

    method Record(ctx: TraceContext)
      modifies this
      ensures metrics == RecordTrace(old(metrics), ctx.trace)
    {
      var m := metrics;
      m := m.(total := m.total + 1);
      if ctx.trace.isFailure {
        var stage := ctx.trace.final;
        m := m.(failures := m.failures + 1, byStage := m.byStage[stage := Or0(m.byStage, stage) + 1]);
        if stage == Unknown { m := m.(unknown := m.unknown + 1); }
      } else {
        m := m.(successes := m.successes + 1);
      }
      if |m.traces| < MAX_TRACES { m := m.(traces := m.traces + [ctx.trace]); }
      metrics := m;
    }

    method RecordUntracedFailure()
      modifies this
      ensures metrics == Step(old(metrics), Untraced)
    {
      metrics := metrics.(untraced := metrics.untraced + 1, failures := metrics.failures + 1, total := metrics.total + 1);
    }

    method ResetAll()
      modifies this
      ensures metrics == Step(old(metrics), Reset)
    {
      metrics := EMPTY;
    }

    /** The context manager around a block that performs `body` on its trace and then ends with `exit`. */
    method TraceBlock(start: real, body: seq<Action>, exit: Exit, end: real)
      modifies this
      ensures metrics == Step(old(metrics), Traced(start, body, exit, end))
    {
      var ctx := new TraceContext(start);
      for i := 0 to |body|
        invariant ctx.trace == DoAll(NewTrace(start), body[..i])
        invariant metrics == old(metrics)
      {
        assert body[..i + 1][..i] == body[..i];
        match body[i]
        case SetStage(stage) => ctx.Set(stage);
        case Succeed(status, at) => ctx.RecordSuccess(status, at);
        case Fail(error, status, at) => ctx.RecordFailure(error, status, at);
      }
      assert body[..|body|] == body;
      if exit.Raises? && !ctx.trace.isFailure && ctx.trace.endTime.None? {
        ctx.RecordFailure(exit.message, None, end);
      }
      if ctx.trace.endTime.None? {
        ctx.trace := ctx.trace.(endTime := Some(end));
      }
      Record(ctx);
    }
  }
}
