/**
 The phase controller of the compound-failure load test, together with the part
 of the metrics it writes (current phase and phase history). Both calls run under
 the phase lock, so an interleaving of users is a sequence of whole calls. Times
 are in seconds; the clock never runs backwards. The plan of phases is a
 parameter; PHASES is the one the load test uses.
 */
module PhaseController {
  import opened Wrappers

  datatype Phase =
    Warmup | NormalLoad | FailureRamp | FailurePeak | RecoveryStart | Stabilization | Cooldown | Completed

  datatype PhaseSpec = PhaseSpec(name: Phase, duration: real)
  type Plan = seq<PhaseSpec>

  const PHASES: Plan := [
    PhaseSpec(Warmup, 30.0),
    PhaseSpec(NormalLoad, 45.0),
    PhaseSpec(FailureRamp, 30.0),
    PhaseSpec(FailurePeak, 90.0),
    PhaseSpec(RecoveryStart, 30.0),
    PhaseSpec(Stabilization, 60.0),
    PhaseSpec(Cooldown, 30.0)]

  /** The name shown at index i; past the last phase it is Completed. */
  function NameAt(plan: Plan, i: nat): Phase { if i < |plan| then plan[i].name else Completed }

  datatype HistoryEntry = HistoryEntry(phase: Phase, start: real, fromPhase: Phase)

  datatype State = State(
    index: nat,
    phaseStart: real,
    initialized: bool,            // also: a failure controller is attached
    failuresInjected: bool,
    currentPhase: Phase,         // the metrics' view
    history: seq<HistoryEntry>,
    actions: seq<Phase>)         // phases whose action was executed, in order

  function Fresh(created: real): State {
    State(0, created, false, false, Warmup, [], [])
  }

  /** A call, with the clock readings it makes in order. */
  datatype Call =
    | Initialize(t1: real)
    | CheckAndAdvance(t1: real, t2: real, t3: real)

  function SetTestPhase(s: State, phase: Phase, at: real): State {
    s.(currentPhase := phase, history := s.history + [HistoryEntry(phase, at, s.currentPhase)])
  }

  function ExecuteAction(s: State, phase: Phase): State {
    if !s.initialized then s
    else s.(actions := s.actions + [phase], failuresInjected := s.failuresInjected || phase == FailurePeak)
  }

  function Step(plan: Plan, s: State, c: Call): State {
    match c
    case Initialize(t) =>
      if s.initialized then s else SetTestPhase(s.(initialized := true), NameAt(plan, 0), t)
    case CheckAndAdvance(t1, t2, t3) =>
      if s.index >= |plan| || t1 - s.phaseStart < plan[s.index].duration then s
      else
        var s1 := s.(index := s.index + 1, phaseStart := t2);
        var s2 := SetTestPhase(s1, NameAt(plan, s1.index), t3);
        if s1.index < |plan| then ExecuteAction(s2, plan[s1.index].name) else s2
  }

  function Run(plan: Plan, s: State, calls: seq<Call>): State
    decreases |calls|
  {
    if calls == [] then s else Step(plan, Run(plan, s, calls[..|calls| - 1]), calls[|calls| - 1])
  }

  function Latest(from: real, calls: seq<Call>): real {
    if calls == [] then from else
      var c := calls[|calls| - 1];
      if c.Initialize? then c.t1 else c.t3
  }

  predicate ClockMonotone(from: real, calls: seq<Call>) {
    if calls == [] then true else
      var c, earlier := calls[|calls| - 1], calls[..|calls| - 1];
      && ClockMonotone(from, earlier)
      && Latest(from, earlier) <= c.t1
      && (c.CheckAndAdvance? ==> c.t1 <= c.t2 <= c.t3)
  }

  function Elapsed(plan: Plan, k: nat): real
    requires k <= |plan|
  {
    if k == 0 then 0.0 else Elapsed(plan, k - 1) + plan[k - 1].duration
  }

  // ----- the shape of the record

  /** The phase in force before entry i. */
  function Before(history: seq<HistoryEntry>, i: nat): Phase
    requires i <= |history|
  {
    if i == 0 then Warmup else history[i - 1].phase
  }

  /** Each entry starts where the one before it left off. */
  predicate Chained(history: seq<HistoryEntry>) {
    forall i {:trigger history[i].fromPhase} :: 0 <= i < |history| ==> history[i].fromPhase == Before(history, i)
  }

  predicate Recorded(s: State) {
    Chained(s.history) && s.currentPhase == Before(s.history, |s.history|)
  }

  lemma SetTestPhaseRecords(s: State, phase: Phase, at: real)
    requires Recorded(s)
    ensures Recorded(SetTestPhase(s, phase, at))
  {
    var h, h' := s.history, SetTestPhase(s, phase, at).history;
    assert forall i :: 0 <= i < |h| ==> h'[i] == h[i];
    forall i | 0 <= i < |h'| ensures h'[i].fromPhase == Before(h', i) {
      if i < |h| { assert h[i].fromPhase == Before(h, i); }
    }
  }

  /** Before `initialize` nothing is attached: advances are recorded but no action runs. */
  ghost predicate Unattached(plan: Plan, s: State) {
    && s.index <= |plan| && !s.initialized && s.actions == [] && !s.failuresInjected
    && Recorded(s)
    && |s.history| == s.index
    && (forall i :: 0 <= i < s.index ==> s.history[i].phase == NameAt(plan, i + 1))
  }

  /** The i-th phase recorded when `initialize` found index `base`: it goes in between, out of turn unless base is 0. */
  function Expected(plan: Plan, base: nat, i: nat): Phase {
    if i < base then NameAt(plan, i + 1) else if i == base then NameAt(plan, 0) else NameAt(plan, i)
  }

  ghost predicate AttachedRecord(plan: Plan, s: State, base: nat) {
    && base <= s.index <= |plan|
    && |s.history| == s.index + 1
    && (forall i :: 0 <= i <= s.index ==> s.history[i].phase == Expected(plan, base, i))
  }

  ghost predicate AttachedActions(plan: Plan, s: State, base: nat) {
    && base <= s.index <= |plan| && s.initialized
    && |s.actions| == (if base < |plan| == s.index then s.index - base - 1 else s.index - base)
    && (forall i :: 0 <= i < |s.actions| ==> s.actions[i] == NameAt(plan, base + 1 + i))
    && (s.failuresInjected <==> FailurePeak in s.actions)
  }

  ghost predicate Attached(plan: Plan, s: State, base: nat) {
    Recorded(s) && AttachedRecord(plan, s, base) && AttachedActions(plan, s, base)
  }

  lemma StepRecords(plan: Plan, s: State, c: Call)
    requires Recorded(s)
    ensures Recorded(Step(plan, s, c))
  {
    if c.Initialize? {
      SetTestPhaseRecords(s.(initialized := true), NameAt(plan, 0), c.t1);
    } else {
      SetTestPhaseRecords(s.(index := s.index + 1, phaseStart := c.t2), NameAt(plan, s.index + 1), c.t3);
    }
  }

  lemma CheckUnattached(plan: Plan, s: State, c: Call)
    requires Unattached(plan, s) && c.CheckAndAdvance?
    ensures Unattached(plan, Step(plan, s, c))
  {
    StepRecords(plan, s, c);
  }

  lemma InitializeAttaches(plan: Plan, s: State, c: Call)
    requires Unattached(plan, s) && c.Initialize?
    ensures Attached(plan, Step(plan, s, c), s.index)
  {
    StepRecords(plan, s, c);
    var s' := Step(plan, s, c);
    assert s'.history == s.history + [HistoryEntry(NameAt(plan, 0), c.t1, s.currentPhase)];
    assert s'.actions == [];
    assert AttachedRecord(plan, s', s.index);
  }

  lemma StepKeepsActions(plan: Plan, s: State, base: nat, c: Call)
    requires AttachedActions(plan, s, base)
    ensures AttachedActions(plan, Step(plan, s, c), base)
  {
  }

  lemma StepKeepsRecord(plan: Plan, s: State, base: nat, c: Call)
    requires AttachedRecord(plan, s, base) && s.initialized
    ensures AttachedRecord(plan, Step(plan, s, c), base)
  {
  }

  lemma StepAttached(plan: Plan, s: State, base: nat, c: Call)
    requires Attached(plan, s, base)
    ensures Attached(plan, Step(plan, s, c), base)
  {
    StepRecords(plan, s, c);
    StepKeepsRecord(plan, s, base, c);
    StepKeepsActions(plan, s, base, c);
  }

  // ----- whole runs

  lemma {:induction false} RunTimes(plan: Plan, created: real, calls: seq<Call>)
    requires ClockMonotone(created, calls)
    ensures var s := Run(plan, Fresh(created), calls);
      s.index <= |plan| && created + Elapsed(plan, s.index) <= s.phaseStart <= Latest(created, calls)
  {
    if calls != [] {
      RunTimes(plan, created, calls[..|calls| - 1]);
    }
  }

  lemma {:induction false} RunUnattached(plan: Plan, created: real, calls: seq<Call>)
    requires forall c :: c in calls ==> c.CheckAndAdvance?
    ensures Unattached(plan, Run(plan, Fresh(created), calls))
  {
    if calls != [] {
      RunUnattached(plan, created, calls[..|calls| - 1]);
      CheckUnattached(plan, Run(plan, Fresh(created), calls[..|calls| - 1]), calls[|calls| - 1]);
    }
  }

  lemma RunSnoc(plan: Plan, s: State, calls: seq<Call>, c: Call)
    ensures Run(plan, s, calls + [c]) == Step(plan, Run(plan, s, calls), c)
  {
    assert (calls + [c])[..|calls + [c]| - 1] == calls;
  }

  lemma {:induction false} RunAttached(plan: Plan, created: real, before: seq<Call>, t: real, later: seq<Call>)
    requires forall c :: c in before ==> c.CheckAndAdvance?
    ensures Attached(plan, Run(plan, Fresh(created), before + [Initialize(t)] + later), Run(plan, Fresh(created), before).index)
  {
    var start := before + [Initialize(t)];
    if later == [] {
      RunUnattached(plan, created, before);
      InitializeAttaches(plan, Run(plan, Fresh(created), before), Initialize(t));
      RunSnoc(plan, Fresh(created), before, Initialize(t));
      assert start + later == start;
    } else {
      var c, earlier := later[|later| - 1], later[..|later| - 1];
      RunAttached(plan, created, before, t, earlier);
      StepAttached(plan, Run(plan, Fresh(created), start + earlier), Run(plan, Fresh(created), before).index, c);
      RunSnoc(plan, Fresh(created), start + earlier, c);
      assert start + later == start + earlier + [c];
    }
  }

  ghost predicate DistinctNames(plan: Plan) {
    forall i, j :: 0 <= i < j <= |plan| ==> NameAt(plan, i) != NameAt(plan, j)
  }

  lemma PhasesDistinct()
    ensures DistinctNames(PHASES)
  {
  }

  /** The record is a prefix of the plan, followed at most once by Completed. */
  ghost predicate InPlannedOrder(plan: Plan, s: State) {
    && |s.history| == s.index + 1 <= |plan| + 1
    && (forall i :: 0 <= i <= s.index ==> s.history[i].phase == NameAt(plan, i))
    && Chained(s.history) && s.currentPhase == NameAt(plan, s.index)
  }

  ghost predicate NoRepeats(names: seq<Phase>) {
    forall i, j :: 0 <= i < j < |names| ==> names[i] != names[j]
  }

  /** Every phase after the first has its action executed once, on entry, in the order of entry. */
  ghost predicate ActionsOnEntry(plan: Plan, s: State) {
    && |s.actions| == (if s.index == |plan| then |plan| - 1 else s.index)
    && (forall i :: 0 <= i < |s.actions| ==> s.actions[i] == NameAt(plan, i + 1))
    && (s.failuresInjected <==> FailurePeak in s.actions)
  }

  lemma RecordAtStart(plan: Plan, s: State)
    requires AttachedRecord(plan, s, 0) && Recorded(s)
    ensures InPlannedOrder(plan, s)
  {
    assert s.history[s.index].phase == Expected(plan, 0, s.index);
  }

  lemma ActionsAtStart(plan: Plan, s: State)
    requires AttachedActions(plan, s, 0) && DistinctNames(plan) && plan != []
    ensures ActionsOnEntry(plan, s) && NoRepeats(s.actions)
  {
  }

  /**
   Phase run safety, for any plan with distinct names. Once the first call is
   `initialize`, any interleaving of calls records the planned phases in order,
   each entered from the one before it; runs each action at most once; and
   completes no earlier than the sum of the durations after the controller was
   created.
   */
  lemma PlannedRun(plan: Plan, created: real, t: real, later: seq<Call>)
    requires DistinctNames(plan) && plan != [] && ClockMonotone(created, [Initialize(t)] + later)
    ensures var s := Run(plan, Fresh(created), [Initialize(t)] + later);
      && InPlannedOrder(plan, s) && ActionsOnEntry(plan, s) && NoRepeats(s.actions)
      && (s.currentPhase == Completed ==> Latest(created, [Initialize(t)] + later) >= created + Elapsed(plan, |plan|))
  {
    var calls := [Initialize(t)] + later;
    var s := Run(plan, Fresh(created), calls);
    AttachedAtOnce(plan, created, t, later);
    RecordAtStart(plan, s);
    ActionsAtStart(plan, s);
    RunTimes(plan, created, calls);
    if s.currentPhase == Completed { CompletedIsLast(plan, s); }
  }

  lemma {:induction false} AttachedAtOnce(plan: Plan, created: real, t: real, later: seq<Call>)
    ensures Attached(plan, Run(plan, Fresh(created), [Initialize(t)] + later), 0)
  {
    assert [] + [Initialize(t)] + later == [Initialize(t)] + later;
    RunAttached(plan, created, [], t, later);
  }

  lemma {:induction false} CompletedIsLast(plan: Plan, s: State)
    requires DistinctNames(plan) && InPlannedOrder(plan, s) && s.currentPhase == Completed
    ensures s.index == |plan|
  {
    assert NameAt(plan, |plan|) == NameAt(plan, s.index);
  }

  ghost predicate Named(history: seq<HistoryEntry>)
    requires |history| <= 8
  {
    var names := [Warmup, NormalLoad, FailureRamp, FailurePeak, RecoveryStart, Stabilization, Cooldown, Completed];
    forall i :: 0 <= i < |history| ==> history[i].phase == names[i]
  }

  /** The same for the phases of the load test, by name: 315 seconds in all. */
  lemma PhaseRunSafety(created: real, t: real, later: seq<Call>)
    requires ClockMonotone(created, [Initialize(t)] + later)
    ensures var s := Run(PHASES, Fresh(created), [Initialize(t)] + later);
      && InPlannedOrder(PHASES, s) && ActionsOnEntry(PHASES, s) && NoRepeats(s.actions)
      && |s.history| <= 8 && Named(s.history)
      && (s.currentPhase == Completed ==> Latest(created, [Initialize(t)] + later) >= created + 315.0)
  {
    PhasesDistinct();
    PlannedRun(PHASES, created, t, later);
    PlannedIsNamed(Run(PHASES, Fresh(created), [Initialize(t)] + later));
    TotalDuration();
  }

  lemma {:induction false} PlannedIsNamed(s: State)
    requires InPlannedOrder(PHASES, s)
    ensures |s.history| <= 8 && Named(s.history)
  {
  }

  lemma TotalDuration()
    ensures |PHASES| == 7 && Elapsed(PHASES, 7) == 315.0
    ensures forall i :: 0 <= i <= 7 ==> Elapsed(PHASES, i) == [0.0, 30.0, 75.0, 105.0, 195.0, 225.0, 285.0, 315.0][i]
  {
    assert Elapsed(PHASES, 0) == 0.0;
    assert Elapsed(PHASES, 1) == PHASES[0].duration == 30.0;
    assert Elapsed(PHASES, 2) == Elapsed(PHASES, 1) + PHASES[1].duration == 75.0;
    assert Elapsed(PHASES, 3) == Elapsed(PHASES, 2) + PHASES[2].duration == 105.0;
    assert Elapsed(PHASES, 4) == Elapsed(PHASES, 3) + PHASES[3].duration == 195.0;
    assert Elapsed(PHASES, 5) == Elapsed(PHASES, 4) + PHASES[4].duration == 225.0;
    assert Elapsed(PHASES, 6) == Elapsed(PHASES, 5) + PHASES[5].duration == 285.0;
  }

  // ----- when phases change, read off the calls alone

  predicate Positions(plan: Plan, calls: seq<Call>, entries: seq<int>) {
    && |entries| <= |plan|
    && (forall i :: 0 <= i < |entries| ==> 0 <= entries[i] < |calls| && calls[entries[i]].CheckAndAdvance?)
    && (forall i, j :: 0 <= i < j < |entries| ==> entries[i] < entries[j])
  }

  /** When phase i began: at the creation of the controller, or at the second clock reading of the call that entered it. */
  function Began(created: real, calls: seq<Call>, entries: seq<int>, i: int): real
    requires 0 <= i <= |entries|
    requires forall k :: 0 <= k < |entries| ==> 0 <= entries[k] < |calls| && calls[entries[k]].CheckAndAdvance?
  {
    if i == 0 then created else calls[entries[i - 1]].t2
  }

  /** Call `entries[i]` finds the duration of phase i over. */
  ghost predicate Due(plan: Plan, created: real, calls: seq<Call>, entries: seq<int>)
    requires Positions(plan, calls, entries)
  {
    forall i :: 0 <= i < |entries| ==> DueAt(plan, created, calls, entries, i)
  }

  predicate DueAt(plan: Plan, created: real, calls: seq<Call>, entries: seq<int>, i: int)
    requires Positions(plan, calls, entries) && 0 <= i < |entries|
  {
    calls[entries[i]].t1 - Began(created, calls, entries, i) >= plan[i].duration
  }

  /** Call k comes after phase i began and before the next one did. */
  predicate During(entries: seq<int>, i: int, k: int)
    requires 0 <= i <= |entries|
  {
    (i == 0 || entries[i - 1] < k) && (i == |entries| || k < entries[i])
  }

  /** Any other check during phase i finds its duration not over. */
  ghost predicate NoneMissed(plan: Plan, created: real, calls: seq<Call>, entries: seq<int>)
    requires Positions(plan, calls, entries)
  {
    forall i, k :: 0 <= i <= |entries| && i < |plan| && 0 <= k < |calls| && During(entries, i, k) && calls[k].CheckAndAdvance? ==>
      calls[k].t1 - Began(created, calls, entries, i) < plan[i].duration
  }

  /** So call `entries[i]` is the first check after phase i began that finds its duration over. */
  ghost predicate Punctual(plan: Plan, created: real, calls: seq<Call>, entries: seq<int>) {
    Positions(plan, calls, entries) && Due(plan, created, calls, entries) && NoneMissed(plan, created, calls, entries)
  }

  /** Each entry of the record is dated by the call that made it. */
  ghost predicate Dated(calls: seq<Call>, entries: seq<int>, history: seq<HistoryEntry>) {
    && |history| == |entries| + 1 && calls != [] && history[0].start == calls[0].t1
    && forall i :: 0 <= i < |entries| ==>
         0 <= entries[i] < |calls| && calls[entries[i]].CheckAndAdvance? && history[i + 1].start == calls[entries[i]].t3
  }

  lemma {:induction false} MoreCalls(plan: Plan, created: real, calls: seq<Call>, c: Call, entries: seq<int>)
    requires Positions(plan, calls, entries)
    ensures Positions(plan, calls + [c], entries)
    ensures forall i :: 0 <= i <= |entries| ==> Began(created, calls + [c], entries, i) == Began(created, calls, entries, i)
  {
  }

  lemma {:induction false} MoreEntries(plan: Plan, created: real, calls: seq<Call>, entries: seq<int>, k: int)
    requires Positions(plan, calls, entries) && Positions(plan, calls, entries + [k])
    ensures forall i :: 0 <= i <= |entries| ==> Began(created, calls, entries + [k], i) == Began(created, calls, entries, i)
  {
  }

  /** A call that does not advance leaves the list of entries as it is. */
  lemma {:induction false} StayPunctual(plan: Plan, created: real, calls: seq<Call>, c: Call, entries: seq<int>)
    requires Punctual(plan, created, calls, entries)
    requires c.CheckAndAdvance? && |entries| < |plan| ==> c.t1 - Began(created, calls, entries, |entries|) < plan[|entries|].duration
    ensures Punctual(plan, created, calls + [c], entries)
  {
    MoreCalls(plan, created, calls, c, entries);
    forall i | 0 <= i < |entries| ensures DueAt(plan, created, calls + [c], entries, i) {
      assert DueAt(plan, created, calls, entries, i);
    }
  }

  lemma {:induction false} DueStill(plan: Plan, created: real, calls: seq<Call>, c: Call, entries: seq<int>, k: int, i: int)
    requires Positions(plan, calls, entries) && Positions(plan, calls + [c], entries + [k])
    requires 0 <= i < |entries| && DueAt(plan, created, calls, entries, i)
    ensures DueAt(plan, created, calls + [c], entries + [k], i)
  {
    MoreCalls(plan, created, calls, c, entries);
    MoreEntries(plan, created, calls + [c], entries, k);
  }

  lemma {:induction false} DueNow(plan: Plan, created: real, calls: seq<Call>, c: Call, entries: seq<int>)
    requires Positions(plan, calls, entries) && Positions(plan, calls + [c], entries + [|calls|])
    requires c.CheckAndAdvance? && |entries| < |plan| && c.t1 - Began(created, calls, entries, |entries|) >= plan[|entries|].duration
    ensures DueAt(plan, created, calls + [c], entries + [|calls|], |entries|)
  {
    MoreCalls(plan, created, calls, c, entries);
    MoreEntries(plan, created, calls + [c], entries, |calls|);
  }

  lemma {:induction false} AdvanceDue(plan: Plan, created: real, calls: seq<Call>, c: Call, entries: seq<int>)
    requires Positions(plan, calls, entries) && Due(plan, created, calls, entries)
    requires c.CheckAndAdvance? && |entries| < |plan| && c.t1 - Began(created, calls, entries, |entries|) >= plan[|entries|].duration
    ensures Positions(plan, calls + [c], entries + [|calls|]) && Due(plan, created, calls + [c], entries + [|calls|])
  {
    NextPosition(plan, calls, c, entries);
    DueNow(plan, created, calls, c, entries);
    forall i | 0 <= i < |entries| ensures DueAt(plan, created, calls + [c], entries + [|calls|], i) {
      DueStill(plan, created, calls, c, entries, |calls|, i);
    }
  }

  lemma {:induction false} NextPosition(plan: Plan, calls: seq<Call>, c: Call, entries: seq<int>)
    requires Positions(plan, calls, entries) && c.CheckAndAdvance? && |entries| < |plan|
    ensures Positions(plan, calls + [c], entries + [|calls|])
  {
  }

  /** A call that advances is the next entry. */
  lemma {:induction false} AdvancePunctual(plan: Plan, created: real, calls: seq<Call>, c: Call, entries: seq<int>)
    requires Punctual(plan, created, calls, entries)
    requires c.CheckAndAdvance? && |entries| < |plan| && c.t1 - Began(created, calls, entries, |entries|) >= plan[|entries|].duration
    ensures Punctual(plan, created, calls + [c], entries + [|calls|])
  {
    var calls', entries' := calls + [c], entries + [|calls|];
    MoreCalls(plan, created, calls, c, entries);
    MoreEntries(plan, created, calls', entries, |calls|);
    AdvanceDue(plan, created, calls, c, entries);
    forall i, k | 0 <= i <= |entries'| && i < |plan| && 0 <= k < |calls'| && During(entries', i, k) && calls'[k].CheckAndAdvance?
      ensures calls'[k].t1 - Began(created, calls', entries', i) < plan[i].duration
    {
      assert i <= |entries| && k < |calls| && During(entries, i, k);
    }
  }

  ghost predicate Keeps(created: real, calls: seq<Call>, entries: seq<int>, s: State) {
    && s.index == |entries|
    && (forall k :: 0 <= k < |entries| ==> 0 <= entries[k] < |calls| && calls[entries[k]].CheckAndAdvance?)
    && s.phaseStart == Began(created, calls, entries, |entries|)
  }

  lemma {:induction false} StepPunctual(plan: Plan, created: real, calls: seq<Call>, c: Call, s: State, entries: seq<int>) returns (entries': seq<int>)
    requires Punctual(plan, created, calls, entries) && Keeps(created, calls, entries, s)
    ensures Punctual(plan, created, calls + [c], entries') && Keeps(created, calls + [c], entries', Step(plan, s, c))
    ensures entries' == if Step(plan, s, c).index == s.index then entries else entries + [|calls|]
    ensures Step(plan, s, c).index != s.index ==> c.CheckAndAdvance?
  {
    MoreCalls(plan, created, calls, c, entries);
    if c.CheckAndAdvance? && |entries| < |plan| && c.t1 - s.phaseStart >= plan[|entries|].duration {
      AdvancePunctual(plan, created, calls, c, entries);
      entries' := entries + [|calls|];
    } else {
      StayPunctual(plan, created, calls, c, entries);
      entries' := entries;
    }
  }

  lemma {:induction false} StepDated(plan: Plan, calls: seq<Call>, c: Call, s: State, entries: seq<int>)
    requires Dated(calls, entries, s.history) && s.initialized
    ensures Step(plan, s, c).initialized
    ensures Dated(calls + [c], if Step(plan, s, c).index == s.index then entries else entries + [|calls|], Step(plan, s, c).history)
  {
  }

  /**
   When every phase is entered, for every sequence of calls: by the first check
   that comes a full duration after the phase before it began, as measured by the
   call that entered that one; neither earlier nor later.
   */
  lemma {:induction false} PunctualRun(plan: Plan, created: real, calls: seq<Call>) returns (entries: seq<int>)
    ensures Punctual(plan, created, calls, entries) && Keeps(created, calls, entries, Run(plan, Fresh(created), calls))
    ensures calls != [] && calls[0].Initialize? ==>
              Dated(calls, entries, Run(plan, Fresh(created), calls).history) && Run(plan, Fresh(created), calls).initialized
  {
    if calls == [] {
      entries := [];
    } else {
      var earlier, c := calls[..|calls| - 1], calls[|calls| - 1];
      var before := PunctualRun(plan, created, earlier);
      var s := Run(plan, Fresh(created), earlier);
      assert earlier + [c] == calls;
      entries := StepPunctual(plan, created, earlier, c, s, before);
      if calls[0].Initialize? && earlier != [] { StepDated(plan, earlier, c, s, before); }
    }
  }

  /** No phase of the load test can begin earlier than this many seconds after the controller was created. */
  lemma {:induction false} EarliestEntries(created: real, t: real, later: seq<Call>, i: nat)
    requires ClockMonotone(created, [Initialize(t)] + later)
    requires i <= Run(PHASES, Fresh(created), [Initialize(t)] + later).index
    ensures i <= 7 && Latest(created, [Initialize(t)] + later) - created >= [0.0, 30.0, 75.0, 105.0, 195.0, 225.0, 285.0, 315.0][i]
  {
    RunTimes(PHASES, created, [Initialize(t)] + later);
    ElapsedGrows(PHASES, i, Run(PHASES, Fresh(created), [Initialize(t)] + later).index);
    TotalDuration();
  }

  lemma {:induction false} ElapsedGrows(plan: Plan, i: nat, j: nat)
    requires i <= j <= |plan| && forall k :: 0 <= k < |plan| ==> plan[k].duration >= 0.0
    ensures Elapsed(plan, i) <= Elapsed(plan, j)
  {
    if i < j { ElapsedGrows(plan, i, j - 1); }
  }

  lemma {:induction false} NotAdvancedExactly(plan: Plan, created: real, checks: seq<Call>)
    requires forall c :: c in checks ==> c.CheckAndAdvance?
    ensures Run(plan, Fresh(created), checks).index == 0 <==> plan == [] || forall c :: c in checks ==> c.t1 - created < plan[0].duration
    ensures Run(plan, Fresh(created), checks).index == 0 ==> Run(plan, Fresh(created), checks).phaseStart == created
  {
    if checks != [] {
      var earlier, last := checks[..|checks| - 1], checks[|checks| - 1];
      NotAdvancedExactly(plan, created, earlier);
      assert checks == earlier + [last] && last in checks;
      assert forall c :: c in checks <==> c in earlier || c == last;
    }
  }

  /**
   Users call `initialize` before any check. If checks could come first, the
   record follows the plan exactly when all of them came before the first phase
   was over, counted from the creation of the controller.
   */
  lemma OrderExactly(plan: Plan, created: real, before: seq<Call>, t: real, later: seq<Call>)
    requires DistinctNames(plan) && forall c :: c in before ==> c.CheckAndAdvance?
    ensures InPlannedOrder(plan, Run(plan, Fresh(created), before + [Initialize(t)] + later))
       <==> plan == [] || forall c :: c in before ==> c.t1 - created < plan[0].duration
  {
    NotAdvancedExactly(plan, created, before);
    RunAttached(plan, created, before, t, later);
    var s, base := Run(plan, Fresh(created), before + [Initialize(t)] + later), Run(plan, Fresh(created), before).index;
    if base > 0 {
      assert s.history[0].phase == Expected(plan, base, 0) == NameAt(plan, 1);
    }
  }

  /** It can go wrong: a check 30 seconds after creation, before `initialize`, records normal load first. */
  lemma EarlyCheckBreaksOrder()
    ensures var s := Run(PHASES, Fresh(0.0), [CheckAndAdvance(30.0, 30.0, 30.0), Initialize(30.0)]);
      |s.history| == 2 && s.history[0].phase == NormalLoad && s.history[1].phase == Warmup
  {
    var check, init := CheckAndAdvance(30.0, 30.0, 30.0), Initialize(30.0);
    assert [check, init][..1] == [check] && [check][..0] == [];
    assert Run(PHASES, Fresh(0.0), [check]) == Step(PHASES, Fresh(0.0), check);
  }

  // ----- the controller object

  class CompoundPhaseController {
    var currentPhaseIndex: nat
    var phaseStartTime: real
    var initialized: bool
    var compoundFailuresInjected: bool
    var metricsPhase: Phase
    var phaseHistory: seq<HistoryEntry>
    var executed: seq<Phase>

    ghost function View(): State
      reads this
    {
      State(currentPhaseIndex, phaseStartTime, initialized, compoundFailuresInjected, metricsPhase, phaseHistory, executed)
    }

    constructor (now: real)
      ensures View() == Fresh(now)
    {
      currentPhaseIndex, phaseStartTime, initialized, compoundFailuresInjected := 0, now, false, false;
      metricsPhase, phaseHistory, executed := Warmup, [], [];
    }

    method SetPhase(phase: Phase, now: real)
      modifies this`metricsPhase, this`phaseHistory
      ensures View() == SetTestPhase(old(View()), phase, now)
    {
      var oldPhase := metricsPhase;
      metricsPhase := phase;
      phaseHistory := phaseHistory + [HistoryEntry(phase, now, oldPhase)];
    }

    method Attach(now: real)
      modifies this
      ensures View() == Step(PHASES, old(View()), Initialize(now))
    {
      if !initialized {
        initialized := true;
        SetPhase(PHASES[0].name, now);
      }
    }

    /** Returns the phase entered by this call, if any. */
    method Check(t1: real, t2: real, t3: real) returns (entered: Option<Phase>)
      modifies this
      ensures View() == Step(PHASES, old(View()), CheckAndAdvance(t1, t2, t3))
      ensures entered == if currentPhaseIndex == old(currentPhaseIndex) then None else Some(NameAt(PHASES, currentPhaseIndex))
    {
      if currentPhaseIndex >= |PHASES| { return None; }
      var elapsed := t1 - phaseStartTime;
      if elapsed >= PHASES[currentPhaseIndex].duration {
        currentPhaseIndex := currentPhaseIndex + 1;
        phaseStartTime := t2;
        if currentPhaseIndex < |PHASES| {
          var phase := PHASES[currentPhaseIndex].name;
          SetPhase(phase, t3);
          if initialized {
            executed := executed + [phase];
            if phase == FailurePeak { compoundFailuresInjected := true; }
          }
          return Some(phase);
        } else {
          SetPhase(Completed, t3);
          return Some(Completed);
        }
      }
      return None;
    }
  }
}
