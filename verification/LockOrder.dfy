/**
 The locks of the compound-failure load test. Every operation is reduced to the
 lock instructions it performs, in order, for every outcome of its HTTP calls.
 The phase controller, every failure controller (one per simulated user) and the
 global metrics each own one non-reentrant lock. Users run operations in any
 order and interleave instruction by instruction.
 */
module LockOrder {
  import opened Wrappers

  datatype Lock = PhaseLock | FailureLock(owner: nat) | MetricsLock
  datatype Instr = Acquire(l: Lock) | Release(l: Lock)
  type Program = seq<Instr>

  // ----- the operations

  /** Operations that take one lock after another, never two at a time. */
  datatype Plain =
    | RecordMetric                           // any record_* call, set_test_phase, get_current_phase, get_metrics_summary
    | InjectTransient(owner: nat, ok: bool)  // ok: the control API answered 200 or 201
    | BlockService(owner: nat, ok: bool)
    | AllowService(owner: nat, ok: bool)
    | ActiveTypes(owner: nat)
    | DlqCount(ok: bool)
    | CleanupAll(owner: nat)

  datatype PhaseName = NormalLoad | Ramp | Peak | Recovery | Stabilization | Cooldown

  /** What one call of check_and_advance_phase does once it holds the phase lock. */
  datatype Advance =
    | Stay                                   // too early, or already completed
    | Complete                               // leaves the last phase
    | Enter(phase: PhaseName, controller: Option<nat>, ok1: bool, ok2: bool)

  datatype Operation =
    | Direct(op: Plain)
    | Initialize(firstCall: bool)
    | CheckAndAdvance(advance: Advance)

  function PlainLocks(op: Plain): seq<Lock> {
    match op
    case RecordMetric => [MetricsLock]
    case InjectTransient(c, ok) => if ok then [FailureLock(c)] else []
    case BlockService(c, ok) => if ok then [FailureLock(c), MetricsLock] else []
    case AllowService(c, ok) => if ok then [FailureLock(c), MetricsLock] else []
    case ActiveTypes(c) => [FailureLock(c)]
    case DlqCount(ok) => if ok then [MetricsLock] else []
    case CleanupAll(c) => [FailureLock(c)]
  }

  function ActionLocks(phase: PhaseName, c: nat, ok1: bool, ok2: bool): seq<Lock> {
    match phase
    case Ramp =>
      PlainLocks(InjectTransient(c, ok1)) + PlainLocks(BlockService(c, ok2)) + PlainLocks(RecordMetric)
    case Peak =>
      PlainLocks(InjectTransient(c, ok1)) + PlainLocks(BlockService(c, ok2)) +
      PlainLocks(ActiveTypes(c)) + PlainLocks(RecordMetric)
    case Recovery => PlainLocks(AllowService(c, ok1)) + PlainLocks(AllowService(c, ok2))
    case Cooldown => PlainLocks(CleanupAll(c))
    case NormalLoad => []
    case Stabilization => []
  }

  function InTurn(locks: seq<Lock>): Program {
    if locks == [] then [] else [Acquire(locks[0]), Release(locks[0])] + InTurn(locks[1..])
  }

  function UnderPhaseLock(locks: seq<Lock>): Program {
    [Acquire(PhaseLock)] + (InTurn(locks) + [Release(PhaseLock)])
  }

  function Code(op: Operation): Program {
    match op
    case Direct(plain) => InTurn(PlainLocks(plain))
    case Initialize(firstCall) => UnderPhaseLock(if firstCall then PlainLocks(RecordMetric) else [])
    case CheckAndAdvance(Stay) => UnderPhaseLock([])
    case CheckAndAdvance(Complete) => UnderPhaseLock(PlainLocks(RecordMetric))
    case CheckAndAdvance(Enter(phase, controller, ok1, ok2)) =>
      UnderPhaseLock(PlainLocks(RecordMetric) +
                     if controller.Some? then ActionLocks(phase, controller.value, ok1, ok2) else [])
  }

  function Script(ops: seq<Operation>): Program {
    if ops == [] then [] else Code(ops[0]) + Script(ops[1..])
  }

  // ----- the machine

  datatype Thread = Thread(rest: Program, held: set<Lock>)
  type State = seq<Thread>

  predicate Free(s: State, l: Lock) { forall i :: 0 <= i < |s| ==> l !in s[i].held }

  /** A lock is only granted when nobody, not even the asker, holds it. */
  predicate Enabled(s: State, i: nat) {
    && i < |s| && s[i].rest != []
    && match s[i].rest[0]
       case Acquire(l) => Free(s, l)
       case Release(l) => l in s[i].held
  }

  function Apply(s: State, i: nat): State
    requires Enabled(s, i)
  {
    var t := s[i];
    var held := match t.rest[0] case Acquire(l) => t.held + {l} case Release(l) => t.held - {l};
    s[i := Thread(t.rest[1..], held)]
  }

  predicate Possible(s: State, schedule: seq<nat>)
    decreases |schedule|
  {
    schedule == [] || (Enabled(s, schedule[0]) && Possible(Apply(s, schedule[0]), schedule[1..]))
  }

  function After(s: State, schedule: seq<nat>): State
    requires Possible(s, schedule)
    decreases |schedule|
  {
    if schedule == [] then s else After(Apply(s, schedule[0]), schedule[1..])
  }

  function Launch(scripts: seq<seq<Operation>>): State {
    seq(|scripts|, i requires 0 <= i < |scripts| => Thread(Script(scripts[i]), {}))
  }

  // ----- the lock order every operation respects

  /** The phase lock is outermost; failure and metrics locks are never nested in one another. */
  predicate MayTake(held: set<Lock>, l: Lock) {
    held == {} || (held == {PhaseLock} && l != PhaseLock)
  }

  predicate Disciplined(p: Program, held: set<Lock>)
    decreases |p|
  {
    if p == [] then held == {} else
      match p[0]
      case Acquire(l) => MayTake(held, l) && Disciplined(p[1..], held + {l})
      case Release(l) => l in held && Disciplined(p[1..], held - {l})
  }

  lemma {:induction false} InTurnDisciplined(locks: seq<Lock>, rest: Program, held: set<Lock>)
    requires PhaseLock !in locks && (held == {} || held == {PhaseLock}) && Disciplined(rest, held)
    ensures Disciplined(InTurn(locks) + rest, held)
  {
    if locks == [] {
      assert InTurn(locks) + rest == rest;
    } else {
      var l, tail := locks[0], InTurn(locks[1..]) + rest;
      InTurnDisciplined(locks[1..], rest, held);
      assert InTurn(locks) + rest == [Acquire(l), Release(l)] + tail;
      assert ([Acquire(l), Release(l)] + tail)[1..] == [Release(l)] + tail;
      assert ([Release(l)] + tail)[1..] == tail;
      assert held + {l} - {l} == held;
    }
  }

  lemma UnderPhaseLockDisciplined(locks: seq<Lock>, rest: Program)
    requires PhaseLock !in locks && Disciplined(rest, {})
    ensures Disciplined(UnderPhaseLock(locks) + rest, {})
  {
    var closing := [Release(PhaseLock)] + rest;
    assert closing[1..] == rest && {PhaseLock} - {PhaseLock} == {};
    InTurnDisciplined(locks, closing, {PhaseLock});
    var body := InTurn(locks) + closing;
    assert UnderPhaseLock(locks) + rest == [Acquire(PhaseLock)] + body;
    assert ([Acquire(PhaseLock)] + body)[1..] == body && {} + {PhaseLock} == {PhaseLock};
  }

  /** Whatever its HTTP outcomes, every sequence of operations takes its locks in order and gives all of them back. */
  lemma {:induction false} ScriptDisciplined(ops: seq<Operation>)
    ensures Disciplined(Script(ops), {})
  {
    if ops != [] {
      ScriptDisciplined(ops[1..]);
      CodeDisciplined(ops[0], Script(ops[1..]));
    }
  }

  lemma {:induction false} CodeDisciplined(op: Operation, rest: Program)
    requires Disciplined(rest, {})
    ensures Disciplined(Code(op) + rest, {})
  {
    match op
    case Direct(plain) => InTurnDisciplined(PlainLocks(plain), rest, {});
    case Initialize(firstCall) => UnderPhaseLockDisciplined(if firstCall then PlainLocks(RecordMetric) else [], rest);
    case CheckAndAdvance(Stay) => UnderPhaseLockDisciplined([], rest);
    case CheckAndAdvance(Complete) => UnderPhaseLockDisciplined(PlainLocks(RecordMetric), rest);
    case CheckAndAdvance(Enter(phase, controller, ok1, ok2)) =>
      var locks := PlainLocks(RecordMetric) +
                   if controller.Some? then ActionLocks(phase, controller.value, ok1, ok2) else [];
      if controller.Some? { ActionTakes(phase, controller.value, ok1, ok2, 0); }
      UnderPhaseLockDisciplined(locks, rest);
  }

  /** Whose failure lock an operation takes, if any. */
  function Controller(op: Operation): Option<nat> {
    match op
    case Direct(InjectTransient(c, ok)) => if ok then Some(c) else None
    case Direct(BlockService(c, ok)) => if ok then Some(c) else None
    case Direct(AllowService(c, ok)) => if ok then Some(c) else None
    case Direct(ActiveTypes(c)) => Some(c)
    case Direct(CleanupAll(c)) => Some(c)
    case CheckAndAdvance(Enter(phase, Some(c), ok1, ok2)) =>
      if phase.Peak? || phase.Cooldown? || ((phase.Ramp? || phase.Recovery?) && (ok1 || ok2)) then Some(c) else None
    case _ => None
  }

  /** Which operations leave the metrics alone. */
  predicate Silent(op: Operation) {
    match op
    case Direct(RecordMetric) => false
    case Direct(DlqCount(ok)) => !ok
    case Direct(BlockService(_, ok)) => !ok
    case Direct(AllowService(_, ok)) => !ok
    case Direct(_) => true
    case Initialize(firstCall) => !firstCall
    case CheckAndAdvance(advance) => advance.Stay?
  }

  lemma {:induction false} InTurnTakes(locks: seq<Lock>, l: Lock)
    ensures Acquire(l) in InTurn(locks) <==> l in locks
  {
    if locks != [] {
      InTurnTakes(locks[1..], l);
      assert locks == [locks[0]] + locks[1..];
    }
  }

  lemma {:induction false} UnderPhaseLockTakes(locks: seq<Lock>, l: Lock)
    ensures Acquire(l) in UnderPhaseLock(locks) <==> l == PhaseLock || l in locks
  {
    InTurnTakes(locks, l);
    var body := InTurn(locks) + [Release(PhaseLock)];
    assert Acquire(l) in body <==> Acquire(l) in InTurn(locks);
    assert Acquire(l) in UnderPhaseLock(locks) <==> l == PhaseLock || Acquire(l) in body;
  }

  /**
   Which locks each operation takes: the phase lock exactly in initialize and
   check_and_advance_phase, the metrics lock exactly where something is recorded,
   and a failure lock exactly where that controller's registry is used.
   */
  lemma {:induction false} TakesExactly(op: Operation, c: nat)
    ensures Acquire(PhaseLock) in Code(op) <==> !op.Direct?
    ensures Acquire(MetricsLock) in Code(op) <==> !Silent(op)
    ensures Acquire(FailureLock(c)) in Code(op) <==> Controller(op) == Some(c)
  {
    TakesIs(op, PhaseLock);
    TakesIs(op, MetricsLock);
    TakesIs(op, FailureLock(c));
    if op.CheckAndAdvance? && op.advance.Enter? {
      if op.advance.controller.Some? { ActionTakes(op.advance.phase, op.advance.controller.value, op.advance.ok1, op.advance.ok2, c); }
    } else if op.Direct? {
      PlainTakes(op.op, c);
    }
  }

  lemma {:induction false} PlainTakes(op: Plain, c: nat)
    ensures PhaseLock !in PlainLocks(op)
    ensures MetricsLock in PlainLocks(op) <==> !Silent(Direct(op))
    ensures FailureLock(c) in PlainLocks(op) <==> Controller(Direct(op)) == Some(c)
  {
  }

  lemma {:induction false} ActionTakes(phase: PhaseName, d: nat, ok1: bool, ok2: bool, c: nat)
    ensures PhaseLock !in ActionLocks(phase, d, ok1, ok2)
    ensures FailureLock(c) in ActionLocks(phase, d, ok1, ok2) <==>
            c == d && (phase.Peak? || phase.Cooldown? || ((phase.Ramp? || phase.Recovery?) && (ok1 || ok2)))
  {
    PlainTakes(InjectTransient(d, ok1), c);
    PlainTakes(BlockService(d, ok2), c);
    PlainTakes(ActiveTypes(d), c);
    PlainTakes(RecordMetric, c);
    PlainTakes(AllowService(d, ok1), c);
    PlainTakes(AllowService(d, ok2), c);
    PlainTakes(CleanupAll(d), c);
  }

  function LocksUsed(op: Operation): seq<Lock> {
    match op
    case Direct(plain) => PlainLocks(plain)
    case Initialize(firstCall) => if firstCall then [MetricsLock] else []
    case CheckAndAdvance(Stay) => []
    case CheckAndAdvance(Complete) => [MetricsLock]
    case CheckAndAdvance(Enter(phase, controller, ok1, ok2)) =>
      [MetricsLock] + if controller.Some? then ActionLocks(phase, controller.value, ok1, ok2) else []
  }

  predicate TakesLock(op: Operation, l: Lock) { (l == PhaseLock && !op.Direct?) || l in LocksUsed(op) }

  lemma {:induction false} TakesIs(op: Operation, l: Lock)
    ensures Acquire(l) in Code(op) <==> TakesLock(op, l)
  {
    if op.Direct? { InTurnTakes(LocksUsed(op), l); } else { UnderPhaseLockTakes(LocksUsed(op), l); }
  }

  // ----- run invariant

  ghost predicate Exclusive(s: State) {
    forall i, j :: 0 <= i < j < |s| ==> s[i].held !! s[j].held
  }

  ghost predicate Inv(s: State) {
    && Exclusive(s)
    && forall i :: 0 <= i < |s| ==> Disciplined(s[i].rest, s[i].held)
  }

  lemma LaunchInv(scripts: seq<seq<Operation>>)
    ensures Inv(Launch(scripts))
  {
    forall i | 0 <= i < |scripts| ensures Disciplined(Script(scripts[i]), {}) { ScriptDisciplined(scripts[i]); }
  }

  lemma {:induction false} RunKeepsInv(s: State, schedule: seq<nat>)
    requires Inv(s) && Possible(s, schedule)
    ensures Inv(After(s, schedule)) && |After(s, schedule)| == |s|
    decreases |schedule|
  {
    if schedule != [] {
      RunKeepsInv(Apply(s, schedule[0]), schedule[1..]);
    }
  }

  // ----- what every reachable state satisfies

  ghost predicate Reachable(s: State) {
    exists scripts, schedule :: Possible(Launch(scripts), schedule) && s == After(Launch(scripts), schedule)
  }

  lemma ReachableInv(s: State)
    requires Reachable(s)
    ensures Inv(s)
  {
    var scripts, schedule :| Possible(Launch(scripts), schedule) && s == After(Launch(scripts), schedule);
    LaunchInv(scripts);
    RunKeepsInv(Launch(scripts), schedule);
  }

  predicate Finished(t: Thread) { t.rest == [] }

  predicate WaitsFor(s: State, i: nat, j: nat) {
    i < |s| && j < |s| && s[i].rest != [] && s[i].rest[0].Acquire? && s[i].rest[0].l in s[j].held
  }

  /** No thread asks for a lock it already holds. */
  lemma NoSelfDeadlock(s: State, i: nat)
    requires Reachable(s)
    ensures !WaitsFor(s, i, i)
  {
    ReachableInv(s);
  }

  /** Waiting chains have at most two links, so there is no circular wait of any length. */
  lemma WaitChainsAreShort(s: State, i: nat, j: nat, k: nat, m: nat)
    requires Reachable(s) && WaitsFor(s, i, j) && WaitsFor(s, j, k)
    ensures !WaitsFor(s, k, m)
  {
    ReachableInv(s);
  }

  /** Until every thread is finished some thread can take its next step. */
  lemma NeverDeadlocked(s: State, i: nat) returns (mover: nat)
    requires Reachable(s) && i < |s| && !Finished(s[i])
    ensures Enabled(s, mover)
  {
    ReachableInv(s);
    mover := i;
    if !Enabled(s, i) {
      var l := s[i].rest[0].l;
      mover :| mover < |s| && l in s[mover].held;  // i waits for mover
      if !Enabled(s, mover) {
        var inner := s[mover].rest[0].l;
        mover :| mover < |s| && inner in s[mover].held;  // and mover for a third, which is about to release
      }
    }
  }

  function Remaining(s: State): nat {
    if s == [] then 0 else |s[0].rest| + Remaining(s[1..])
  }

  lemma {:induction false} RemainingDrops(s: State, i: nat, t: Thread)
    requires i < |s| && |t.rest| + 1 == |s[i].rest|
    ensures Remaining(s[i := t]) + 1 == Remaining(s)
  {
    if i > 0 {
      RemainingDrops(s[1..], i - 1, t);
      assert s[i := t][1..] == s[1..][i - 1 := t];
    } else {
      assert s[i := t][1..] == s[1..];
    }
  }

  lemma {:induction false} RunLength(s: State, schedule: seq<nat>)
    requires Possible(s, schedule)
    ensures Remaining(After(s, schedule)) + |schedule| == Remaining(s)
    decreases |schedule|
  {
    if schedule != [] {
      var i := schedule[0];
      RemainingDrops(s, i, Apply(s, i)[i]);
      RunLength(Apply(s, i), schedule[1..]);
    }
  }

  lemma {:induction false} NothingRemains(s: State, i: nat)
    requires i < |s|
    ensures |s[i].rest| <= Remaining(s)
  {
    if i > 0 { NothingRemains(s[1..], i - 1); }
  }

  /**
   Every schedule is bounded by the number of lock instructions, and one that
   cannot be extended has finished every thread and left every lock free.
   */
  lemma SchedulesComplete(scripts: seq<seq<Operation>>, schedule: seq<nat>)
    requires Possible(Launch(scripts), schedule)
    ensures |schedule| <= Remaining(Launch(scripts))
    ensures var s := After(Launch(scripts), schedule);
      (forall i :: !Enabled(s, i)) <==> |schedule| == Remaining(Launch(scripts))
    ensures var s := After(Launch(scripts), schedule);
      |schedule| == Remaining(Launch(scripts)) ==> forall i :: 0 <= i < |s| ==> Finished(s[i]) && s[i].held == {}
  {
    var s := After(Launch(scripts), schedule);
    assert Reachable(s);
    ReachableInv(s);
    RunLength(Launch(scripts), schedule);
    if |schedule| == Remaining(Launch(scripts)) {
      forall i: nat | i < |s| ensures s[i].rest == [] { NothingRemains(s, i); }
    } else {
      var i := SomethingRemains(s);
      var mover := NeverDeadlocked(s, i);
    }
  }

  lemma {:induction false} SomethingRemains(s: State) returns (i: nat)
    requires Remaining(s) > 0
    ensures i < |s| && !Finished(s[i])
  {
    if s[0].rest != [] {
      i := 0;
    } else {
      i := SomethingRemains(s[1..]);
      i := i + 1;
    }
  }
}
