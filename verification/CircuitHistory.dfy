/**
 The record of circuit state changes. A user that blocks or allows a service
 first looks up the service's current state, with a default if there is none, and
 records the change in a later step. In between, others may record changes of
 their own; the load test prevents that by doing both under the phase lock.
 */
module CircuitHistory {
  import opened Wrappers

  datatype Circuit = Closed | Open

  /** The default looked up when a service has no state yet: the one a change to `to` would come from. */
  function Opposite(to: Circuit): Circuit { if to == Open then Closed else Open }

  /** `seen` is a history variable: how many changes had been recorded when the state was looked up. */
  datatype Change = Change(service: string, from: Circuit, to: Circuit, seen: nat)

  /** Outside a phase action, inside one, or inside one between the lookup and the record. */
  datatype User = Outside | Inside | Seen(change: Change)

  datatype State = State(current: map<string, Circuit>, history: seq<Change>, users: map<nat, User>)

  const START := State(map[], [], map[])

  function UserAt(s: State, u: nat): User { if u in s.users then s.users[u] else Outside }

  datatype Event =
    | Enter(u: nat)
    | LookUp(u: nat, service: string, to: Circuit)   // block_service looks up for Open, allow_service for Closed
    | Record(u: nat)                                 // record_circuit_state_change
    | Leave(u: nat)

  /** With the phase lock, a user enters only when no other is inside. */
  predicate Enabled(locked: bool, s: State, e: Event) {
    match e
    case Enter(u) => UserAt(s, u).Outside? && (locked ==> forall v :: v in s.users ==> s.users[v].Outside?)
    case LookUp(u, _, _) => UserAt(s, u).Inside?
    case Record(u) => UserAt(s, u).Seen?
    case Leave(u) => UserAt(s, u).Inside?
  }

  function Apply(locked: bool, s: State, e: Event): State
    requires Enabled(locked, s, e)
  {
    match e
    case Enter(u) => s.(users := s.users[u := Inside])
    case LookUp(u, service, to) =>
      var from := if service in s.current then s.current[service] else Opposite(to);
      s.(users := s.users[u := Seen(Change(service, from, to, |s.history|))])
    case Record(u) =>
      var change := UserAt(s, u).change;
      State(s.current[change.service := change.to], s.history + [change], s.users[u := Inside])
    case Leave(u) => s.(users := s.users[u := Outside])
  }

  predicate Possible(locked: bool, run: seq<Event>)
    decreases |run|, 0
  {
    run == [] || (Possible(locked, run[..|run| - 1]) && Enabled(locked, After(locked, run[..|run| - 1]), run[|run| - 1]))
  }

  function After(locked: bool, run: seq<Event>): State
    requires Possible(locked, run)
    decreases |run|, 1
  {
    if run == [] then START else Apply(locked, After(locked, run[..|run| - 1]), run[|run| - 1])
  }

  // ----- the history of one service

  /** The state the last of the changes left a service in. */
  function LastTo(changes: seq<Change>, service: string): Option<Circuit> {
    if changes == [] then None
    else if changes[|changes| - 1].service == service then Some(changes[|changes| - 1].to)
    else LastTo(changes[..|changes| - 1], service)
  }

  function StateIn(changes: seq<Change>, service: string, to: Circuit): Circuit {
    var last := LastTo(changes, service);
    if last.Some? then last.value else Opposite(to)
  }

  /** A change starts from the state the previous change of its service led to. */
  predicate Linked(history: seq<Change>, k: nat)
    requires k < |history|
  {
    history[k].from == StateIn(history[..k], history[k].service, history[k].to)
  }

  lemma {:induction false} LastToConcat(a: seq<Change>, b: seq<Change>, service: string)
    ensures LastTo(a + b, service) == if LastTo(b, service).Some? then LastTo(b, service) else LastTo(a, service)
  {
    if b == [] {
      assert a + b == a;
    } else {
      LastToConcat(a, b[..|b| - 1], service);
      assert (a + b)[..|a + b| - 1] == a + b[..|b| - 1];
    }
  }

  // ----- what every interleaving keeps

  ghost predicate Current(s: State) {
    forall service :: LastTo(s.history, service) == if service in s.current then Some(s.current[service]) else None
  }

  /** A change carries the state its service had when it was looked up. */
  ghost predicate Honest(history: seq<Change>, c: Change) {
    c.seen <= |history| && c.from == StateIn(history[..c.seen], c.service, c.to)
  }

  ghost predicate HonestHistory(history: seq<Change>) {
    forall k :: 0 <= k < |history| ==> history[k].seen <= k && Honest(history, history[k])
  }

  ghost predicate HonestUsers(s: State) {
    forall u :: u in s.users && s.users[u].Seen? ==> Honest(s.history, s.users[u].change)
  }

  ghost predicate Inv(s: State) { Current(s) && HonestHistory(s.history) && HonestUsers(s) }

  lemma {:induction false} HonestLater(history: seq<Change>, c: Change, next: Change)
    requires Honest(history, c)
    ensures Honest(history + [next], c)
  {
    assert (history + [next])[..c.seen] == history[..c.seen];
  }

  lemma {:induction false} RecordKeepsInv(locked: bool, s: State, u: nat)
    requires Inv(s) && Enabled(locked, s, Record(u))
    ensures Inv(Apply(locked, s, Record(u)))
  {
    var s', change := Apply(locked, s, Record(u)), UserAt(s, u).change;
    assert s'.history[..|s.history|] == s.history;
    forall c | Honest(s.history, c) ensures Honest(s'.history, c) { HonestLater(s.history, c, change); }
  }

  lemma {:induction false} LookUpKeepsInv(locked: bool, s: State, u: nat, service: string, to: Circuit)
    requires Inv(s) && Enabled(locked, s, LookUp(u, service, to))
    ensures Inv(Apply(locked, s, LookUp(u, service, to)))
  {
    assert s.history[..|s.history|] == s.history;
    assert LastTo(s.history, service) == if service in s.current then Some(s.current[service]) else None;
  }

  lemma {:induction false} RunKeepsInv(locked: bool, run: seq<Event>)
    requires Possible(locked, run)
    ensures Inv(After(locked, run))
  {
    if run != [] {
      var earlier, e := run[..|run| - 1], run[|run| - 1];
      RunKeepsInv(locked, earlier);
      if e.Record? { RecordKeepsInv(locked, After(locked, earlier), e.u); }
      if e.LookUp? { LookUpKeepsInv(locked, After(locked, earlier), e.u, e.service, e.to); }
    }
  }

  /**
   For every interleaving, with the lock or without: a recorded change is linked
   exactly when no change of its service was recorded between its lookup and its
   record, or the last of those led to the very state it had looked up.
   */
  lemma {:induction false} LinkedExactly(locked: bool, run: seq<Event>, k: nat)
    requires Possible(locked, run) && k < |After(locked, run).history|
    ensures var history := After(locked, run).history;
      && history[k].seen <= k
      && (Linked(history, k) <==>
          var between := LastTo(history[history[k].seen..k], history[k].service); between.None? || between.value == history[k].from)
  {
    RunKeepsInv(locked, run);
    HonestLinked(After(locked, run).history, k);
  }

  lemma {:induction false} HonestLinked(history: seq<Change>, k: nat)
    requires k < |history| && history[k].seen <= k && Honest(history, history[k])
    ensures Linked(history, k) <==>
            var between := LastTo(history[history[k].seen..k], history[k].service); between.None? || between.value == history[k].from
  {
    var c := history[k];
    LastToConcat(history[..c.seen], history[c.seen..k], c.service);
    assert history[..k] == history[..c.seen] + history[c.seen..k];
  }

  // ----- with the phase lock

  /** At most one user is inside, and nothing has been recorded since its lookup. */
  ghost predicate OneInside(s: State) {
    forall u :: u in s.users && !s.users[u].Outside? ==>
      && (forall v :: v in s.users && v != u ==> s.users[v].Outside?)
      && (s.users[u].Seen? ==> s.users[u].change.seen == |s.history|)
  }

  lemma {:induction false} LockedRun(run: seq<Event>)
    requires Possible(true, run)
    ensures OneInside(After(true, run))
    ensures forall k :: 0 <= k < |After(true, run).history| ==> After(true, run).history[k].seen == k
  {
    if run != [] { LockedRun(run[..|run| - 1]); }
  }

  /** Under the phase lock every recorded change is linked, over every run. */
  lemma {:induction false} LockedLinked(run: seq<Event>, k: nat)
    requires Possible(true, run) && k < |After(true, run).history|
    ensures Linked(After(true, run).history, k)
  {
    LockedRun(run);
    LinkedExactly(true, run, k);
    var history := After(true, run).history;
    assert history[history[k].seen..k] == [];
  }

  /** The lock is needed: two users that change the same service the same way record the same change twice. */
  lemma {:induction false} UnlockedUnlinked(service: string, to: Circuit) returns (run: seq<Event>)
    ensures Possible(false, run) && |After(false, run).history| == 2 && !Linked(After(false, run).history, 1)
  {
    var change := Change(service, Opposite(to), to, 0);
    run := BothLookUp(service, to);
    var s := State(map[], [], map[0 := Seen(change), 1 := Seen(change)]);
    var s' := State(map[service := to], [change], map[0 := Inside, 1 := Seen(change)]);
    run := Next(run, s, Record(0), s');
    run := Next(run, s', Record(1), State(map[service := to], [change] + [change], map[0 := Inside, 1 := Inside]));
    TwiceUnlinked(change);
  }

  lemma {:induction false} TwiceUnlinked(change: Change)
    requires change.from != change.to
    ensures !Linked([change] + [change], 1)
  {
    assert ([change] + [change])[..1] == [change] && LastTo([change], change.service) == Some(change.to);
  }

  lemma {:induction false} BothLookUp(service: string, to: Circuit) returns (run: seq<Event>)
    ensures var change := Change(service, Opposite(to), to, 0);
      Possible(false, run) && After(false, run) == State(map[], [], map[0 := Seen(change), 1 := Seen(change)])
  {
    var change := Change(service, Opposite(to), to, 0);
    var s1, s2 := State(map[], [], map[0 := Inside]), State(map[], [], map[0 := Inside, 1 := Inside]);
    var s3, s4 := State(map[], [], map[0 := Seen(change), 1 := Inside]), State(map[], [], map[0 := Seen(change), 1 := Seen(change)]);
    run := Next([], START, Enter(0), s1);
    run := Next(run, s1, Enter(1), s2);
    run := Next(run, s2, LookUp(0, service, to), s3);
    run := Next(run, s3, LookUp(1, service, to), s4);
  }

  lemma {:induction false} Next(run: seq<Event>, s: State, e: Event, s': State) returns (longer: seq<Event>)
    requires Possible(false, run) && After(false, run) == s && Enabled(false, s, e) && Apply(false, s, e) == s'
    ensures Possible(false, longer) && After(false, longer) == s'
  {
    longer := run + [e];
    assert longer[..|run|] == run;
  }
}
