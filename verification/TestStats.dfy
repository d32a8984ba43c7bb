/**
 The statistics object shared by the load-test scenarios: per-scenario counters
 with bounded windows of response times and error messages, global pass and fail
 counters, and free counters. Every method runs under the object's lock.
 */
module TestStats {
  import opened Wrappers
  import opened Windows
  import opened MapSums

  const MAX_TIMES := 1000
  const MAX_ERRORS := 100

  datatype Scenario = Scenario(
    count: nat, success: nat, failed: nat,
    times: seq<real>, errors: seq<string>, metadata: map<string, string>)

  datatype State = State(
    scenarios: map<string, Scenario>,
    passed: int,
    failed: int,
    healing: map<string, int>)

  const EMPTY := State(map[], 0, 0, map[])
  const NEW_SCENARIO := Scenario(0, 0, 0, [], [], map[])

  datatype Op =
    | Record(name: string, success: bool, time: real, error: Option<string>, metadata: map<string, string>)
    | Increment(key: string, amount: int)     // a decrement is an increment by the negated amount
    | Reset

  /** Names that are attributes of the object without being integers: increments of these are dropped. */
  const INERT := {"timestamp", "safe_increment", "safe_decrement", "record_scenario", "get_scenario_stats",
                  "_percentile", "get_summary", "to_dict", "reset"}

  predicate Noted(op: Op) { op.Record? && !op.success && op.error.Some? && op.error.value != "" }

  function Update(s: Scenario, op: Op): Scenario
    requires op.Record?
  {
    Scenario(
      s.count + 1,
      s.success + (if op.success then 1 else 0),
      s.failed + (if op.success then 0 else 1),
      Slide(s.times, MAX_TIMES, op.time),
      if Noted(op) then Slide(s.errors, MAX_ERRORS, op.error.value) else s.errors,
      s.metadata + op.metadata)
  }

  function ScenarioAt(st: State, name: string): Scenario {
    if name in st.scenarios then st.scenarios[name] else NEW_SCENARIO
  }

  function Step(st: State, op: Op): State {
    match op
    case Record(name, success, _, _, _) =>
      st.(scenarios := st.scenarios[name := Update(ScenarioAt(st, name), op)],
          passed := st.passed + (if success then 1 else 0),
          failed := st.failed + (if success then 0 else 1))
    case Increment(key, amount) =>
      if key == "passed" then st.(passed := st.passed + amount)
      else if key == "failed" then st.(failed := st.failed + amount)
      else if key in INERT then st
      else st.(healing := st.healing[key := Or0(st.healing, key) + amount])
    case Reset => EMPTY
  }

  function Run(log: seq<Op>): State {
    if log == [] then EMPTY else Step(Run(log[..|log| - 1]), log[|log| - 1])
  }

  // ----- the full history since the last reset

  function TimesOf(log: seq<Op>, name: string): seq<real> {
    if log == [] then [] else
      var op, earlier := log[|log| - 1], TimesOf(log[..|log| - 1], name);
      if op.Reset? then [] else if op.Record? && op.name == name then earlier + [op.time] else earlier
  }

  function ErrorsOf(log: seq<Op>, name: string): seq<string> {
    if log == [] then [] else
      var op, earlier := log[|log| - 1], ErrorsOf(log[..|log| - 1], name);
      if op.Reset? then []
      else if op.Record? && op.name == name && !op.success && op.error.Some? && op.error.value != "" then earlier + [op.error.value]
      else earlier
  }

  function Successes(log: seq<Op>, name: string): nat {
    if log == [] then 0 else
      var op, earlier := log[|log| - 1], Successes(log[..|log| - 1], name);
      if op.Reset? then 0 else if op.Record? && op.name == name && op.success then earlier + 1 else earlier
  }

  function Incremented(log: seq<Op>, key: string): int {
    if log == [] then 0 else
      var op, earlier := log[|log| - 1], Incremented(log[..|log| - 1], key);
      if op.Reset? then 0 else if op.Increment? && op.key == key then earlier + op.amount else earlier
  }

  /**
   Every scenario's windows and counters are those of its full history: the last
   thousand times, the last hundred messages.
   */
  lemma {:induction false} WindowsAgreeWithHistory(log: seq<Op>, name: string)
    ensures var s := ScenarioAt(Run(log), name);
      && (name in Run(log).scenarios <==> TimesOf(log, name) != [])
      && s.count == |TimesOf(log, name)| == s.success + s.failed
      && s.success == Successes(log, name)
    ensures var s, all := ScenarioAt(Run(log), name), TimesOf(log, name); s.times == if |all| <= 1000 then all else all[|all| - 1000..]
    ensures var s, all := ScenarioAt(Run(log), name), ErrorsOf(log, name); s.errors == if |all| <= 100 then all else all[|all| - 100..]
  {
    WindowsAgree(log, name);
  }

  lemma {:induction false} WindowsAgree(log: seq<Op>, name: string)
    ensures var s := ScenarioAt(Run(log), name);
      && (name in Run(log).scenarios <==> TimesOf(log, name) != [])
      && s.count == |TimesOf(log, name)| == s.success + s.failed
      && s.success == Successes(log, name)
      && s.times == Last(TimesOf(log, name), MAX_TIMES)
      && s.errors == Last(ErrorsOf(log, name), MAX_ERRORS)
  {
    if log != [] {
      var earlier, op := log[..|log| - 1], log[|log| - 1];
      WindowsAgree(earlier, name);
      if op.Record? && op.name == name {
        SlideIsLast(TimesOf(earlier, name), MAX_TIMES, op.time);
        if Noted(op) { SlideIsLast(ErrorsOf(earlier, name), MAX_ERRORS, op.error.value); }
      }
    }
  }

  /** The value a metadata key was last given for a scenario since the last reset. */
  function LastMetadata(log: seq<Op>, name: string, key: string): Option<string> {
    if log == [] then None else
      var op := log[|log| - 1];
      if op.Reset? then None
      else if op.Record? && op.name == name && key in op.metadata then Some(op.metadata[key])
      else LastMetadata(log[..|log| - 1], name, key)
  }

  /** A scenario's metadata holds, under every key, what it was last given. */
  lemma {:induction false} MetadataAgrees(log: seq<Op>, name: string, key: string)
    ensures var metadata := ScenarioAt(Run(log), name).metadata;
      (if key in metadata then Some(metadata[key]) else None) == LastMetadata(log, name, key)
  {
    if log != [] { MetadataAgrees(log[..|log| - 1], name, key); }
  }

  // ----- conservation

  ghost function SuccessMap(st: State): map<string, int> { map n | n in st.scenarios :: st.scenarios[n].success }
  ghost function FailedMap(st: State): map<string, int> { map n | n in st.scenarios :: st.scenarios[n].failed }

  lemma {:induction false} RecordMovesPassed(st: State, op: Op)
    requires op.Record?
    ensures Total(SuccessMap(Step(st, op))) == Total(SuccessMap(st)) + if op.success then 1 else 0
  {
    var s := Update(ScenarioAt(st, op.name), op);
    TotalUpdate(SuccessMap(st), op.name, s.success);
    assert SuccessMap(Step(st, op)) == SuccessMap(st)[op.name := s.success];
  }

  lemma {:induction false} RecordMovesFailed(st: State, op: Op)
    requires op.Record?
    ensures Total(FailedMap(Step(st, op))) == Total(FailedMap(st)) + if op.success then 0 else 1
  {
    var s := Update(ScenarioAt(st, op.name), op);
    TotalUpdate(FailedMap(st), op.name, s.failed);
    assert FailedMap(Step(st, op)) == FailedMap(st)[op.name := s.failed];
  }

  /** Only increments of the two counters move them away from the sums over scenarios. */
  lemma {:induction false} StepKeepsOffset(st: State, op: Op)
    requires !op.Reset?
    ensures Step(st, op).passed - Total(SuccessMap(Step(st, op))) ==
            st.passed - Total(SuccessMap(st)) + if op.Increment? && op.key == "passed" then op.amount else 0
    ensures Step(st, op).failed - Total(FailedMap(Step(st, op))) ==
            st.failed - Total(FailedMap(st)) + if op.Increment? && op.key == "failed" then op.amount else 0
  {
    if op.Record? {
      RecordMovesPassed(st, op);
      RecordMovesFailed(st, op);
    } else {
      assert Step(st, op).scenarios == st.scenarios;
      assert SuccessMap(Step(st, op)) == SuccessMap(st) && FailedMap(Step(st, op)) == FailedMap(st);
    }
  }

  /** The global counters are the sums over scenarios, shifted only by explicit increments. */
  lemma {:induction false} CountersConserved(log: seq<Op>)
    ensures Run(log).passed == Total(SuccessMap(Run(log))) + Incremented(log, "passed")
    ensures Run(log).failed == Total(FailedMap(Run(log))) + Incremented(log, "failed")
  {
    if log == [] || log[|log| - 1].Reset? {
      assert SuccessMap(EMPTY) == map[] && FailedMap(EMPTY) == map[];
    } else {
      CountersConserved(log[..|log| - 1]);
      StepKeepsOffset(Run(log[..|log| - 1]), log[|log| - 1]);
    }
  }

  /** Free counters hold the net increments of their key; counters and inert names never appear among them. */
  lemma {:induction false} FreeCounters(log: seq<Op>, key: string)
    ensures if key in {"passed", "failed", "timestamp", "safe_increment", "safe_decrement", "record_scenario", "get_scenario_stats",
                       "_percentile", "get_summary", "to_dict", "reset"} then key !in Run(log).healing
            else Or0(Run(log).healing, key) == Incremented(log, key)
  {
    if log != [] { FreeCounters(log[..|log| - 1], key); }
  }

  // ----- the object

  class BaseTestStats {
    var scenarios: map<string, Scenario>
    var passed: int
    var failed: int
    var healingActions: map<string, int>

    ghost function View(): State
      reads this
    {
      State(scenarios, passed, failed, healingActions)
    }

    constructor ()
      ensures View() == EMPTY
    {
      scenarios, passed, failed, healingActions := map[], 0, 0, map[];
    }

    method SafeIncrement(key: string, amount: int)
      modifies this
      ensures View() == Step(old(View()), Increment(key, amount))
    {
      if key == "passed" {
        passed := passed + amount;
      } else if key == "failed" {
        failed := failed + amount;
      } else if key !in INERT {
        healingActions := healingActions[key := (if key in healingActions then healingActions[key] else 0) + amount];
      }
    }

    method RecordScenario(name: string, success: bool, time: real, error: Option<string>, metadata: map<string, string>)
      modifies this
      ensures View() == Step(old(View()), Record(name, success, time, error, metadata))
    {
      if name !in scenarios {
        scenarios := scenarios[name := NEW_SCENARIO];
      }
      var s := scenarios[name];
      s := s.(count := s.count + 1);
      if success {
        s := s.(success := s.success + 1);
        passed := passed + 1;
      } else {
        s := s.(failed := s.failed + 1);
        failed := failed + 1;
        if error.Some? && error.value != "" {
          if |s.errors| >= MAX_ERRORS { s := s.(errors := KeepLast(s.errors, MAX_ERRORS - 1)); }
          s := s.(errors := s.errors + [error.value]);
        }
      }
      if |s.times| >= MAX_TIMES { s := s.(times := KeepLast(s.times, MAX_TIMES - 1)); }
      s := s.(times := s.times + [time]);
      s := s.(metadata := s.metadata + metadata);
      scenarios := scenarios[name := s];
    }

    method ResetAll()
      modifies this
      ensures View() == Step(old(View()), Reset)
    {
      scenarios, passed, failed, healingActions := map[], 0, 0, map[];
    }
  }
}
