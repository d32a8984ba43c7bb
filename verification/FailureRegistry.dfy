/**
 The registry of active failures of the compound-failure controller: a
 dictionary (kept in insertion order, as Python keeps it) from failure keys to
 records with a start time and a time to live. Expired records are only removed
 when somebody asks for the active failures. Times are in seconds.
 */
module FailureRegistry {
  import opened Wrappers

  datatype Kind = Transient | CircuitOpen

  function KindName(kind: Kind): string {
    match kind case Transient => "transient" case CircuitOpen => "circuit_open"
  }

  function Key(kind: Kind, service: string): string { KindName(kind) + "_" + service }

  datatype Failure = Failure(kind: Kind, service: string, start: real, ttl: real)
  datatype Entry = Entry(key: string, info: Failure)
  type Registry = seq<Entry>

  /** A failure is identified by its kind and its service. */
  type Id = (Kind, string)

  predicate Alive(f: Failure, now: real) { now - f.start < f.ttl }

  // ----- dictionary operations

  function Put(d: Registry, e: Entry): Registry {
    if d == [] then [e]
    else if d[0].key == e.key then [e] + d[1..]
    else [d[0]] + Put(d[1..], e)
  }

  function Delete(d: Registry, key: string): Registry {
    if d == [] then []
    else if d[0].key == key then d[1..]
    else [d[0]] + Delete(d[1..], key)
  }

  function KeepAlive(d: Registry, now: real): Registry {
    if d == [] then []
    else if Alive(d[0].info, now) then [d[0]] + KeepAlive(d[1..], now)
    else KeepAlive(d[1..], now)
  }

  function Types(d: Registry): seq<string> {
    seq(|d|, i requires 0 <= i < |d| => KindName(d[i].info.kind))
  }

  // ----- the event log

  datatype Event =
    | Injected(kind: Kind, service: string, at: real, ttlMinutes: int)  // inject_transient_failure or block_service, accepted
    | Allowed(service: string, at: real)                                // allow_service, accepted
    | CleanedUp(at: real)                                               // cleanup_all_failures
    | Queried(at: real)                                                 // get_active_failure_types

  function NewEntry(kind: Kind, service: string, at: real, ttlMinutes: int): Entry {
    Entry(Key(kind, service), Failure(kind, service, at, (ttlMinutes * 60) as real))
  }

  function Step(d: Registry, e: Event): Registry {
    match e
    case Injected(kind, service, at, ttlMinutes) => Put(d, NewEntry(kind, service, at, ttlMinutes))
    case Allowed(service, _) => Delete(d, Key(CircuitOpen, service))
    case CleanedUp(_) => []
    case Queried(at) => KeepAlive(d, at)
  }

  function Replay(log: seq<Event>): Registry {
    if log == [] then [] else Step(Replay(log[..|log| - 1]), log[|log| - 1])
  }

  /** The log's own account of a failure: its last injection, unless that was cleared later. Queries play no part. */
  function LastInjection(log: seq<Event>, id: Id): Option<Failure> {
    if log == [] then None else
      var e := log[|log| - 1];
      if e.Injected? && (e.kind, e.service) == id then Some(Failure(e.kind, e.service, e.at, (e.ttlMinutes * 60) as real))
      else if e.CleanedUp? || (e.Allowed? && (CircuitOpen, e.service) == id) then None
      else LastInjection(log[..|log| - 1], id)
  }

  predicate ActiveByLog(log: seq<Event>, id: Id, now: real) {
    LastInjection(log, id).Some? && Alive(LastInjection(log, id).value, now)
  }

  predicate ClockMonotone(log: seq<Event>, now: real) {
    log == [] || (log[|log| - 1].at <= now && ClockMonotone(log[..|log| - 1], log[|log| - 1].at))
  }

  // ----- keys identify failures

  lemma KeyIs(service: string)
    ensures Key(Transient, service) == "transient_" + service
    ensures Key(CircuitOpen, service) == "circuit_open_" + service
  {
  }

  lemma KeyInjective(a: Id, b: Id)
    requires Key(a.0, a.1) == Key(b.0, b.1)
    ensures a == b
  {
    assert Key(a.0, a.1)[0] == (if a.0 == Transient then 't' else 'c');
    assert Key(b.0, b.1)[0] == (if b.0 == Transient then 't' else 'c');
    var n := |KindName(a.0)| + 1;
    assert Key(a.0, a.1)[n..] == a.1 && Key(b.0, b.1)[n..] == b.1;
  }

  function IdOf(e: Entry): Id { (e.info.kind, e.info.service) }

  ghost predicate DistinctKeys(d: Registry) {
    forall i, j :: 0 <= i < j < |d| ==> d[i].key != d[j].key
  }

  // ----- effect of the dictionary operations

  /** As in Python, a known key keeps its place and a new one goes last. */
  lemma {:induction false} PutPlaces(d: Registry, e: Entry, k: nat)
    requires k <= |d| && (forall i :: 0 <= i < k ==> d[i].key != e.key) && (k < |d| ==> d[k].key == e.key)
    ensures Put(d, e) == if k < |d| then d[k := e] else d + [e]
  {
    if d != [] && k > 0 {
      PutPlaces(d[1..], e, k - 1);
      assert d == [d[0]] + d[1..];
    }
  }

  lemma {:induction false} DeletePlaces(d: Registry, key: string, k: nat)
    requires k <= |d| && (forall i :: 0 <= i < k ==> d[i].key != key) && (k < |d| ==> d[k].key == key)
    ensures Delete(d, key) == if k < |d| then d[..k] + d[k + 1..] else d
  {
    if d != [] && k > 0 {
      DeletePlaces(d[1..], key, k - 1);
      assert d == [d[0]] + d[1..];
    }
  }

  lemma PrependDistinct(e: Entry, d: Registry)
    requires DistinctKeys(d) && forall x :: x in d ==> x.key != e.key
    ensures DistinctKeys([e] + d)
  {
  }

  lemma HeadKeyUnique(d: Registry)
    requires d != [] && DistinctKeys(d)
    ensures DistinctKeys(d[1..]) && forall x :: x in d[1..] ==> x.key != d[0].key
  {
  }

  lemma {:induction false} PutEffect(d: Registry, e: Entry)
    requires DistinctKeys(d)
    ensures DistinctKeys(Put(d, e))
    ensures forall x :: x in Put(d, e) <==> x == e || (x in d && x.key != e.key)
  {
    if d != [] {
      HeadKeyUnique(d);
      assert d == [d[0]] + d[1..];
      if d[0].key == e.key {
        PrependDistinct(e, d[1..]);
      } else {
        PutEffect(d[1..], e);
        PrependDistinct(d[0], Put(d[1..], e));
      }
    }
  }

  lemma {:induction false} DeleteEffect(d: Registry, key: string)
    requires DistinctKeys(d)
    ensures DistinctKeys(Delete(d, key))
    ensures forall x :: x in Delete(d, key) <==> x in d && x.key != key
  {
    if d != [] {
      HeadKeyUnique(d);
      assert d == [d[0]] + d[1..];
      if d[0].key != key {
        DeleteEffect(d[1..], key);
        PrependDistinct(d[0], Delete(d[1..], key));
      }
    }
  }

  lemma {:induction false} KeepAliveEffect(d: Registry, now: real)
    requires DistinctKeys(d)
    ensures DistinctKeys(KeepAlive(d, now))
    ensures forall x :: x in KeepAlive(d, now) <==> x in d && Alive(x.info, now)
  {
    if d != [] {
      HeadKeyUnique(d);
      assert d == [d[0]] + d[1..];
      KeepAliveEffect(d[1..], now);
      PrependDistinct(d[0], KeepAlive(d[1..], now));
    }
  }

  // ----- the log read event by event

  /** Event i injected the failure, and no later event injected it again or cleared it. */
  ghost predicate Latest(log: seq<Event>, id: Id, i: int) {
    && 0 <= i < |log| && log[i].Injected? && log[i].kind == id.0 && log[i].service == id.1
    && forall j :: i < j < |log| ==>
         && !(log[j].Injected? && log[j].kind == id.0 && log[j].service == id.1)
         && !(log[j].Allowed? && id.0 == CircuitOpen && log[j].service == id.1)
         && !log[j].CleanedUp?
  }

  /** Less than the given minutes have passed since event i. */
  predicate Within(log: seq<Event>, i: int, now: real)
    requires 0 <= i < |log| && log[i].Injected?
  {
    now - log[i].at < 60.0 * log[i].ttlMinutes as real
  }

  /** No query after event i came too late for it. */
  ghost predicate Unpruned(log: seq<Event>, i: int)
    requires 0 <= i < |log| && log[i].Injected?
  {
    forall j :: i < j < |log| && log[j].Queried? ==> Within(log, i, log[j].at)
  }

  /** What the event log says is active. */
  ghost predicate Active(log: seq<Event>, id: Id, now: real) {
    exists i :: Latest(log, id, i) && Within(log, i, now)
  }

  /** The same, if no query has come too late in between. */
  ghost predicate StillListed(log: seq<Event>, id: Id, now: real) {
    exists i :: Latest(log, id, i) && Within(log, i, now) && Unpruned(log, i)
  }

  lemma {:induction false} LatestBefore(log: seq<Event>, id: Id, i: int)
    requires log != [] && i < |log| - 1
    ensures var e := log[|log| - 1];
      Latest(log, id, i) <==>
        && Latest(log[..|log| - 1], id, i)
        && !(e.Injected? && e.kind == id.0 && e.service == id.1) && !(e.Allowed? && id.0 == CircuitOpen && e.service == id.1) && !e.CleanedUp?
  {
    assert forall j :: 0 <= j < |log| - 1 ==> log[..|log| - 1][j] == log[j];
  }

  /** The last injection is the latest event of that kind. */
  lemma {:induction false} LastInjectionAt(log: seq<Event>, id: Id, i: int)
    requires Latest(log, id, i)
    ensures LastInjection(log, id) == Some(Failure(id.0, id.1, log[i].at, 60.0 * log[i].ttlMinutes as real))
  {
    if i < |log| - 1 {
      LatestBefore(log, id, i);
      LastInjectionAt(log[..|log| - 1], id, i);
    }
  }

  lemma {:induction false} LastInjectionFound(log: seq<Event>, id: Id) returns (i: int)
    requires LastInjection(log, id).Some?
    ensures Latest(log, id, i)
  {
    var e := log[|log| - 1];
    if e.Injected? && (e.kind, e.service) == id {
      i := |log| - 1;
    } else {
      i := LastInjectionFound(log[..|log| - 1], id);
      LatestBefore(log, id, i);
    }
  }

  lemma {:induction false} SurvivesExactly(log: seq<Event>, id: Id, i: int)
    requires Latest(log, id, i)
    ensures Survives(log, id) <==> Unpruned(log, i)
  {
    if i < |log| - 1 {
      var before := log[..|log| - 1];
      LatestBefore(log, id, i);
      SurvivesExactly(before, id, i);
      LastInjectionAt(before, id, i);
      assert forall j :: 0 <= j < |before| ==> before[j] == log[j];
      assert Unpruned(log, i) <==> Unpruned(before, i) && (log[|log| - 1].Queried? ==> Within(log, i, log[|log| - 1].at));
    }
  }

  lemma {:induction false} ActiveExactly(log: seq<Event>, id: Id, now: real)
    ensures ActiveByLog(log, id, now) <==> Active(log, id, now)
    ensures Survives(log, id) && ActiveByLog(log, id, now) <==> StillListed(log, id, now)
  {
    if ActiveByLog(log, id, now) {
      var i := LastInjectionFound(log, id);
      LastInjectionAt(log, id, i);
      SurvivesExactly(log, id, i);
      assert Within(log, i, now);
    }
    forall i | Latest(log, id, i) && Within(log, i, now) ensures ActiveByLog(log, id, now) { LastInjectionAt(log, id, i); }
    forall i | Latest(log, id, i) && Within(log, i, now) && Unpruned(log, i) ensures Survives(log, id) { SurvivesExactly(log, id, i); }
  }

  // ----- the registry, exactly, for every clock

  /** The last injection was not cleared, and no query since then found it expired. */
  ghost predicate Survives(log: seq<Event>, id: Id) {
    if log == [] then false else
      var e, before := log[|log| - 1], log[..|log| - 1];
      match e
      case Injected(kind, service, _, _) => (kind, service) == id || Survives(before, id)
      case Allowed(service, _) => id != (CircuitOpen, service) && Survives(before, id)
      case CleanedUp(_) => false
      case Queried(at) => Survives(before, id) && ActiveByLog(before, id, at)
  }

  /** The entry the log accounts for under an identity. */
  ghost predicate Accounted(log: seq<Event>, x: Entry) {
    x.key == Key(x.info.kind, x.info.service) && Survives(log, IdOf(x)) && LastInjection(log, IdOf(x)) == Some(x.info)
  }

  ghost predicate Mirrors(d: Registry, log: seq<Event>) {
    DistinctKeys(d) && forall x :: x in d <==> Accounted(log, x)
  }

  lemma LastInjectionId(log: seq<Event>, id: Id)
    requires LastInjection(log, id).Some?
    ensures var f := LastInjection(log, id).value; (f.kind, f.service) == id
  {
  }

  lemma SameKeySameId(x: Entry, id: Id)
    requires x.key == Key(x.info.kind, x.info.service)
    ensures x.key == Key(id.0, id.1) <==> IdOf(x) == id
  {
    if x.key == Key(id.0, id.1) { KeyInjective(IdOf(x), id); }
  }

  lemma {:induction false} StepMirrors(d: Registry, log: seq<Event>, e: Event)
    requires Mirrors(d, log)
    ensures Mirrors(Step(d, e), log + [e])
  {
    var d', log' := Step(d, e), log + [e];
    assert log'[..|log'| - 1] == log;
    match e {
      case Injected(kind, service, at, ttlMinutes) => PutEffect(d, NewEntry(kind, service, at, ttlMinutes));
      case Allowed(service, _) => DeleteEffect(d, Key(CircuitOpen, service));
      case CleanedUp(_) =>
      case Queried(at) => KeepAliveEffect(d, at);
    }
    forall x ensures x in d' <==> Accounted(log', x) {
      assert x in d <==> Accounted(log, x);
      if x.key == Key(x.info.kind, x.info.service) {
        if e.Injected? { SameKeySameId(x, (e.kind, e.service)); }
        if e.Allowed? { SameKeySameId(x, (CircuitOpen, e.service)); }
      }
    }
  }

  /** Whatever the clock does, the dictionary holds exactly the last injections that survive, each under its own key. */
  lemma {:induction false} ReplayMirrors(log: seq<Event>)
    ensures Mirrors(Replay(log), log)
  {
    if log != [] {
      var before, e := log[..|log| - 1], log[|log| - 1];
      ReplayMirrors(before);
      StepMirrors(Replay(before), before, e);
      assert before + [e] == log;
    }
  }

  /** One type name per failure, in the order of the list, and no failure twice. */
  ghost predicate Answers(answer: seq<string>, ids: seq<Id>) {
    && (forall i, j :: 0 <= i < j < |ids| ==> ids[i] != ids[j])
    && |answer| == |ids| && forall i :: 0 <= i < |ids| ==> answer[i] == if ids[i].0 == Transient then "transient" else "circuit_open"
  }

  /**
   What a query answers, for every log and every clock: one type per failure
   whose latest injection was not cleared, is within its minutes, and was so at
   every query since; none missing, none repeated, none extra.
   */
  lemma {:induction false} QueryExactly(log: seq<Event>, now: real) returns (ids: seq<Id>)
    ensures Answers(Types(KeepAlive(Replay(log), now)), ids)
    ensures forall id :: id in ids <==> StillListed(log, id, now)
    ensures ids == Ids(KeepAlive(Replay(log), now))
  {
    ids := QuerySurvivors(log, now);
    forall id ensures id in ids <==> StillListed(log, id, now) { ActiveExactly(log, id, now); }
  }

  lemma {:induction false} QuerySurvivors(log: seq<Event>, now: real) returns (ids: seq<Id>)
    ensures Answers(Types(KeepAlive(Replay(log), now)), ids)
    ensures forall id :: id in ids <==> Survives(log, id) && ActiveByLog(log, id, now)
    ensures ids == Ids(KeepAlive(Replay(log), now))
  {
    ReplayMirrors(log);
    var kept := KeepAlive(Replay(log), now);
    KeepAliveEffect(Replay(log), now);
    ids := Ids(kept);
    forall i | 0 <= i < |kept| ensures Accounted(log, kept[i]) && Alive(kept[i].info, now) { assert kept[i] in kept; }
    forall id | id in ids ensures Survives(log, id) && ActiveByLog(log, id, now) {
      var i :| 0 <= i < |ids| && ids[i] == id;
    }
    forall id | Survives(log, id) && ActiveByLog(log, id, now) ensures id in ids {
      var e := Entry(Key(id.0, id.1), LastInjection(log, id).value);
      LastInjectionId(log, id);
      assert Accounted(log, e) && e in kept;
      var i :| 0 <= i < |kept| && kept[i] == e;
      assert ids[i] == id;
    }
  }

  function Ids(d: Registry): seq<Id> { seq(|d|, i requires 0 <= i < |d| => IdOf(d[i])) }

  /** A query now would answer with exactly the failures the log calls active. */
  ghost predicate Refines(log: seq<Event>, now: real) {
    forall id :: id in Ids(KeepAlive(Replay(log), now)) <==> Active(log, id, now)
  }

  /** That is so exactly when no query since its last injection has pruned a failure that is active now. */
  lemma {:induction false} RefinesExactly(log: seq<Event>, now: real)
    ensures Refines(log, now) <==> forall id :: Active(log, id, now) ==> StillListed(log, id, now)
  {
    var ids := QueryExactly(log, now);
    forall id | StillListed(log, id, now) ensures Active(log, id, now) {
      var i :| Latest(log, id, i) && Within(log, i, now) && Unpruned(log, i);
    }
  }

  // ----- refinement of the log under a monotone clock

  lemma {:induction false} AliveSurvives(log: seq<Event>, id: Id, now: real)
    requires ClockMonotone(log, now) && ActiveByLog(log, id, now)
    ensures Survives(log, id)
  {
    if log != [] {
      var before, e := log[..|log| - 1], log[|log| - 1];
      if !(e.Injected? && (e.kind, e.service) == id) {
        assert ActiveByLog(before, id, e.at);
        AliveSurvives(before, id, e.at);
      }
    }
  }

  /**
   Over any run with a monotone clock the lazily pruned registry answers with
   the types of exactly the failures the log says are active: one entry per
   active failure, none missing, none repeated, none extra.
   */
  lemma {:induction false} QueryRefinesLog(log: seq<Event>, now: real) returns (ids: seq<Id>)
    requires ClockMonotone(log, now)
    ensures Refines(log, now)
    ensures Answers(Types(KeepAlive(Replay(log), now)), ids)
    ensures forall id :: id in ids <==> Active(log, id, now)
  {
    ids := QueryExactly(log, now);
    forall id ensures Active(log, id, now) ==> StillListed(log, id, now) {
      ActiveExactly(log, id, now);
      if Active(log, id, now) { AliveSurvives(log, id, now); }
    }
    RefinesExactly(log, now);
  }

  /** With a clock that runs back it can fail: a query that ran ahead prunes a failure the log would still call active. */
  lemma {:induction false} ClockMustNotGoBack(kind: Kind, service: string)
    ensures var log := [Injected(kind, service, 0.0, 1), Queried(61.0)];
      !ClockMonotone(log, 1.0) && !Refines(log, 1.0) && Active(log, (kind, service), 1.0)
  {
    var log, id := [Injected(kind, service, 0.0, 1), Queried(61.0)], (kind, service);
    assert Latest(log, id, 0) && Within(log, 0, 1.0) && !Within(log, 0, log[1].at);
    assert Active(log, id, 1.0) && !StillListed(log, id, 1.0);
    RefinesExactly(log, 1.0);
  }

  // ----- the controller object

  /** `log` is a ghost record of what was done; the registry methods keep it in step with `active`. */
  class FailureController {
    var active: Registry
    ghost var log: seq<Event>
    ghost var clock: real

    ghost predicate Valid()
      reads this
    {
      active == Replay(log) && ClockMonotone(log, clock)
    }

    constructor ()
      ensures Valid() && active == [] && log == []
    {
      active, log, clock := [], [], 0.0;
    }

    ghost method Note(e: Event)
      requires ClockMonotone(log, clock) && clock <= e.at && active == Step(Replay(log), e)
      modifies this`log, this`clock
      ensures Valid() && log == old(log) + [e] && clock == e.at
    {
      var log' := log + [e];
      assert log'[..|log'| - 1] == log;
      log, clock := log', e.at;
    }

    method InjectTransient(service: string, ttlMinutes: int, accepted: bool, now: real) returns (ok: bool)
      requires Valid() && clock <= now
      modifies this
      ensures Valid() && ok == accepted
      ensures log == old(log) + if accepted then [Injected(Transient, service, now, ttlMinutes)] else []
      ensures !accepted ==> active == old(active)
    {
      if accepted {
        active := Put(active, NewEntry(Transient, service, now, ttlMinutes));
        Note(Injected(Transient, service, now, ttlMinutes));
      }
      ok := accepted;
    }

    method BlockService(service: string, ttlMinutes: int, accepted: bool, now: real) returns (ok: bool)
      requires Valid() && clock <= now
      modifies this
      ensures Valid() && ok == accepted
      ensures log == old(log) + if accepted then [Injected(CircuitOpen, service, now, ttlMinutes)] else []
      ensures !accepted ==> active == old(active)
    {
      if accepted {
        active := Put(active, NewEntry(CircuitOpen, service, now, ttlMinutes));
        Note(Injected(CircuitOpen, service, now, ttlMinutes));
      }
      ok := accepted;
    }

    method AllowService(service: string, accepted: bool, now: real) returns (ok: bool)
      requires Valid() && clock <= now
      modifies this
      ensures Valid() && ok == accepted
      ensures log == old(log) + if accepted then [Allowed(service, now)] else []
      ensures !accepted ==> active == old(active)
    {
      if accepted {
        active := Delete(active, Key(CircuitOpen, service));
        Note(Allowed(service, now));
      }
      ok := accepted;
    }

    method CleanupAll(now: real)
      requires Valid() && clock <= now
      modifies this
      ensures Valid() && log == old(log) + [CleanedUp(now)] && active == []
    {
      active := [];
      Note(CleanedUp(now));
    }

    /** Walks a snapshot of the dictionary, collecting live types and deleting expired keys on the way. */
    method Sweep(now: real) returns (types: seq<string>)
      requires DistinctKeys(active)
      modifies this`active
      ensures active == KeepAlive(old(active), now) && types == Types(active)
    {
      var snapshot := active;
      types := [];
      for i := 0 to |snapshot|
        invariant active == KeepAlive(snapshot[..i], now) + snapshot[i..]
        invariant types == Types(KeepAlive(snapshot[..i], now))
      {
        SweepStep(snapshot, i, now);
        if Alive(snapshot[i].info, now) {
          types := types + [KindName(snapshot[i].info.kind)];
        } else {
          active := Delete(active, snapshot[i].key);
        }
      }
      assert snapshot[..|snapshot|] == snapshot;
    }

    method ActiveTypes(now: real) returns (types: seq<string>, ghost ids: seq<Id>)
      requires Valid() && clock <= now
      modifies this
      ensures Valid() && log == old(log) + [Queried(now)]
      ensures Answers(types, ids) && forall id :: id in ids <==> Active(old(log), id, now)
    {
      Later(log, clock, now);
      ReplayMirrors(log);
      ids := QueryRefinesLog(log, now);
      types := Sweep(now);
      Note(Queried(now));
    }
  }

  lemma Later(log: seq<Event>, clock: real, now: real)
    requires ClockMonotone(log, clock) && clock <= now
    ensures ClockMonotone(log, now)
  {
  }

  lemma {:induction false} KeepAliveSnoc(d: Registry, e: Entry, now: real)
    ensures KeepAlive(d + [e], now) == KeepAlive(d, now) + if Alive(e.info, now) then [e] else []
  {
    if d == [] {
      assert d + [e] == [e];
    } else {
      KeepAliveSnoc(d[1..], e, now);
      assert (d + [e])[1..] == d[1..] + [e];
    }
  }

  /** At the cursor a live record stays where it is, and deleting an expired key removes exactly its record. */
  lemma {:induction false} SweepStep(snapshot: Registry, i: nat, now: real)
    requires DistinctKeys(snapshot) && i < |snapshot|
    ensures var e, kept, kept' := snapshot[i], KeepAlive(snapshot[..i], now), KeepAlive(snapshot[..i + 1], now);
      if Alive(e.info, now)
      then kept' + snapshot[i + 1..] == kept + snapshot[i..] && Types(kept') == Types(kept) + [KindName(e.info.kind)]
      else kept' + snapshot[i + 1..] == Delete(kept + snapshot[i..], e.key) && Types(kept') == Types(kept)
  {
    var e, kept := snapshot[i], KeepAlive(snapshot[..i], now);
    KeepAliveSnoc(snapshot[..i], e, now);
    assert snapshot[..i + 1] == snapshot[..i] + [e];
    assert snapshot[i..] == [e] + snapshot[i + 1..];
    if Alive(e.info, now) {
      TypesSnoc(kept, e);
    } else {
      EarlierKeysDiffer(snapshot, i, now);
      SkipDelete(kept, snapshot[i..], e.key);
    }
  }

  lemma TypesSnoc(d: Registry, e: Entry)
    ensures Types(d + [e]) == Types(d) + [KindName(e.info.kind)]
  {
  }

  lemma {:induction false} EarlierKeysDiffer(snapshot: Registry, i: nat, now: real)
    requires DistinctKeys(snapshot) && i < |snapshot|
    ensures forall x :: x in KeepAlive(snapshot[..i], now) ==> x.key != snapshot[i].key
  {
    KeepAliveEffect(snapshot[..i], now);
    forall x | x in KeepAlive(snapshot[..i], now) ensures x.key != snapshot[i].key {
      var j :| 0 <= j < i && snapshot[..i][j] == x;
    }
  }

  lemma {:induction false} SkipDelete(kept: Registry, rest: Registry, key: string)
    requires (forall x :: x in kept ==> x.key != key) && rest != [] && rest[0].key == key
    ensures Delete(kept + rest, key) == kept + rest[1..]
  {
    if kept == [] {
      assert kept + rest == rest;
    } else {
      SkipDelete(kept[1..], rest, key);
      assert (kept + rest)[1..] == kept[1..] + rest;
    }
  }
}
