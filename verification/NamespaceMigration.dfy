/**
 Copying Redis keys into a new namespace while SCAN walks the keyspace. SCAN may
 return a key any number of times, in any order, and may return keys the run
 itself has written. The store is a map from keys to typed values with an
 optional time to live, and the clock stands still during the run.
 */
module NamespaceMigration {
  import opened Wrappers

  datatype Value =
    | Str(text: string)
    | Hash(fields: map<string, string>)
    | List(items: seq<string>)
    | Set(members: set<string>)
    | ZSet(scores: map<string, real>)
    | Stream                                   // any type the script does not know

  /** `ttl` is what the TTL command reports; Some(0) is a key that expires within the second. */
  datatype Entry = Entry(value: Value, ttl: Option<nat>)
  type Store = map<string, Entry>

  datatype Config = Config(source: string, target: string, dryRun: bool)

  /** An exception raised by a Redis call: asking for the type, before the copy is written, or after that and before its expiry is set. */
  datatype Fault = Fine | AtType | BeforeWrite | BeforeExpire
  datatype Visit = Visit(key: string, fault: Fault)

  datatype Status = WouldMigrate | Migrated | Failed
  datatype Record = Record(from: string, to: string, status: Status)
  datatype Stats = Stats(scanned: nat, migrated: nat, skipped: nat, errors: nat, keys: seq<Record>)
  datatype World = World(store: Store, stats: Stats)

  // ----- names

  /** The target prefix built by `main`. `p <= s` says that p is a prefix of s. */
  function TargetPrefix(source: string, namespace: string): string {
    var base := if source != "" && source[|source| - 1] == ':' then source[..|source| - 1] else source;
    base + ":" + namespace + ":"
  }

  predicate Excluded(c: Config, key: string) {
    c.source <= c.target && c.target != "" && c.target <= key
  }

  function Rename(c: Config, key: string): string
    requires c.source <= key
  {
    c.target + key[|c.source|..]
  }

  /** The source key a target key would be the copy of. */
  function Origin(c: Config, key: string): string
    requires c.target <= key
  {
    c.source + key[|c.target|..]
  }

  // ----- one key

  datatype Outcome = Stored(entry: Entry) | Nothing | Raised

  /** The write of the copy, before the expiry is set. SET overwrites and clears the expiry; the others extend. */
  function Write(v: Value, existing: Option<Entry>): Outcome {
    match v
    case Str(_) => Stored(Entry(v, None))
    case Hash(fields) =>
      if fields == map[] then Raised
      else if existing.None? then Stored(Entry(v, None))
      else if existing.value.value.Hash? then Stored(existing.value.(value := Hash(existing.value.value.fields + fields)))
      else Raised
    case List(items) =>
      if items == [] then Nothing
      else if existing.None? then Stored(Entry(v, None))
      else if existing.value.value.List? then Stored(existing.value.(value := List(existing.value.value.items + items)))
      else Raised
    case Set(members) =>
      if members == {} then Nothing
      else if existing.None? then Stored(Entry(v, None))
      else if existing.value.value.Set? then Stored(existing.value.(value := Set(existing.value.value.members + members)))
      else Raised
    case ZSet(scores) =>
      if scores == map[] then Nothing
      else if existing.None? then Stored(Entry(v, None))
      else if existing.value.value.ZSet? then Stored(existing.value.(value := ZSet(existing.value.value.scores + scores)))
      else Raised
    case Stream => Raised
  }

  function Find(store: Store, key: string): Option<Entry> { if key in store then Some(store[key]) else None }

  function Expire(store: Store, key: string, ttl: Option<nat>): Store {
    if ttl.Some? && ttl.value > 0 && key in store then store[key := store[key].(ttl := ttl)] else store
  }

  predicate KnownType(store: Store, key: string) { key in store && !store[key].value.Stream? }

  /** The store after copying a key of a known type, and whether no exception was raised. */
  function CopyKey(store: Store, key: string, newKey: string, fault: Fault): (Store, bool)
    requires KnownType(store, key) && !fault.AtType?
  {
    if fault.BeforeWrite? then (store, false) else
      var outcome := Write(store[key].value, Find(store, newKey));
      if outcome.Raised? then (store, false) else
        var written := if outcome.Stored? then store[newKey := outcome.entry] else store;
        if fault.BeforeExpire? then (written, false) else (Expire(written, newKey, store[key].ttl), true)
  }

  function MigrateOne(c: Config, w: World, v: Visit): World
    requires c.source <= v.key
  {
    var s := w.stats.(scanned := w.stats.scanned + 1);
    if Excluded(c, v.key) then w.(stats := s.(skipped := s.skipped + 1)) else
      var newKey := Rename(c, v.key);
      if c.dryRun then w.(stats := s.(keys := s.keys + [Record(v.key, newKey, WouldMigrate)]))
      else if v.fault.AtType? then w.(stats := s.(errors := s.errors + 1, keys := s.keys + [Record(v.key, newKey, Failed)]))
      else if !KnownType(w.store, v.key) then w.(stats := s.(errors := s.errors + 1))
      else
        var (store, ok) := CopyKey(w.store, v.key, newKey, v.fault);
        if ok then World(store, s.(migrated := s.migrated + 1, keys := s.keys + [Record(v.key, newKey, Migrated)]))
        else World(store, s.(errors := s.errors + 1, keys := s.keys + [Record(v.key, newKey, Failed)]))
  }

  /** SCAN is asked for keys that start with the source prefix. */
  predicate Matching(c: Config, visits: seq<Visit>) {
    forall i :: 0 <= i < |visits| ==> c.source <= visits[i].key
  }

  function MigrateAll(c: Config, w: World, visits: seq<Visit>): World
    requires Matching(c, visits)
    decreases |visits|
  {
    if visits == [] then w
    else MigrateOne(c, MigrateAll(c, w, visits[..|visits| - 1]), visits[|visits| - 1])
  }

  // ----- the script's loop

  function Flatten(pages: seq<seq<Visit>>): seq<Visit> {
    if pages == [] then [] else Flatten(pages[..|pages| - 1]) + pages[|pages| - 1]
  }

  lemma MigrateSnoc(c: Config, w: World, visits: seq<Visit>, v: Visit)
    requires Matching(c, visits) && c.source <= v.key
    ensures Matching(c, visits + [v])
    ensures MigrateAll(c, w, visits + [v]) == MigrateOne(c, MigrateAll(c, w, visits), v)
  {
    assert (visits + [v])[..|visits + [v]| - 1] == visits;
  }

  class Migrator {
    var store: Store
    var stats: Stats

    constructor (redis: Store)
      ensures store == redis && stats == Stats(0, 0, 0, 0, [])
    {
      store, stats := redis, Stats(0, 0, 0, 0, []);
    }

    method MigrateKey(c: Config, v: Visit)
      requires c.source <= v.key
      modifies this
      ensures World(store, stats) == MigrateOne(c, old(World(store, stats)), v)
    {
      stats := stats.(scanned := stats.scanned + 1);
      if Excluded(c, v.key) {
        stats := stats.(skipped := stats.skipped + 1);
        return;
      }
      var newKey := c.target + v.key[|c.source|..];
      if c.dryRun {
        stats := stats.(keys := stats.keys + [Record(v.key, newKey, WouldMigrate)]);
      } else if v.fault.AtType? {
        stats := stats.(errors := stats.errors + 1, keys := stats.keys + [Record(v.key, newKey, Failed)]);
      } else if !KnownType(store, v.key) {
        stats := stats.(errors := stats.errors + 1);
      } else {
        var copied, ok := CopyKey(store, v.key, newKey, v.fault).0, CopyKey(store, v.key, newKey, v.fault).1;
        store := copied;
        if ok {
          stats := stats.(migrated := stats.migrated + 1, keys := stats.keys + [Record(v.key, newKey, Migrated)]);
        } else {
          stats := stats.(errors := stats.errors + 1, keys := stats.keys + [Record(v.key, newKey, Failed)]);
        }
      }
    }

    /** The keys of one reply to SCAN. */
    method MigratePage(c: Config, page: seq<Visit>)
      requires Matching(c, page)
      modifies this
      ensures World(store, stats) == MigrateAll(c, old(World(store, stats)), page)
    {
      for k := 0 to |page|
        invariant World(store, stats) == MigrateAll(c, old(World(store, stats)), page[..k])
      {
        MigrateSnoc(c, old(World(store, stats)), page[..k], page[k]);
        MigrateKey(c, page[k]);
        assert page[..k + 1] == page[..k] + [page[k]];
      }
      assert page[..|page|] == page;
    }

    /** `pages` are the replies to SCAN, up to and including the one that returns cursor 0. */
    method MigrateKeys(c: Config, pages: seq<seq<Visit>>)
      requires forall p :: 0 <= p < |pages| ==> Matching(c, pages[p])
      modifies this
      ensures Matching(c, Flatten(pages))
      ensures World(store, stats) == MigrateAll(c, old(World(store, stats)), Flatten(pages))
    {
      for p := 0 to |pages|
        invariant Matching(c, Flatten(pages[..p]))
        invariant World(store, stats) == MigrateAll(c, old(World(store, stats)), Flatten(pages[..p]))
      {
        PageNext(c, old(World(store, stats)), pages, p);
        MigratePage(c, pages[p]);
      }
      assert pages[..|pages|] == pages;
    }
  }

  lemma {:induction false} MigrateConcat(c: Config, w: World, a: seq<Visit>, b: seq<Visit>)
    requires Matching(c, a) && Matching(c, b)
    ensures Matching(c, a + b) && MigrateAll(c, w, a + b) == MigrateAll(c, MigrateAll(c, w, a), b)
    decreases |b|
  {
    if b == [] {
      assert a + b == a;
    } else {
      MigrateConcat(c, w, a, b[..|b| - 1]);
      assert (a + b)[..|a + b| - 1] == a + b[..|b| - 1];
    }
  }

  lemma {:induction false} PageNext(c: Config, w: World, pages: seq<seq<Visit>>, p: nat)
    requires p < |pages| && Matching(c, Flatten(pages[..p])) && Matching(c, pages[p])
    ensures Matching(c, Flatten(pages[..p + 1]))
    ensures MigrateAll(c, w, Flatten(pages[..p + 1])) == MigrateAll(c, MigrateAll(c, w, Flatten(pages[..p])), pages[p])
  {
    assert pages[..p + 1][..p] == pages[..p];
    MigrateConcat(c, w, Flatten(pages[..p]), pages[p]);
  }

  // ----- the run never consumes its own output

  /** Whatever the namespace, `main` builds a target that properly extends the source. */
  lemma TargetExtendsSource(source: string, namespace: string)
    ensures source <= TargetPrefix(source, namespace) && |source| < |TargetPrefix(source, namespace)|
  {
  }

  /** With or without its final colon, a source prefix gives the same target: the namespace between colons behind it. */
  lemma TargetIs(base: string, namespace: string)
    ensures TargetPrefix(base + ":", namespace) == base + ":" + namespace + ":"
    ensures (base == "" || base[|base| - 1] != ':') ==> TargetPrefix(base, namespace) == base + ":" + namespace + ":"
  {
    assert (base + ":")[..|base|] == base;
  }

  lemma RenameInjective(c: Config, a: string, b: string)
    requires c.source <= a && c.source <= b && Rename(c, a) == Rename(c, b)
    ensures a == b
  {
    assert Rename(c, a)[|c.target|..] == a[|c.source|..];
    assert Rename(c, b)[|c.target|..] == b[|c.source|..];
    assert a == c.source + a[|c.source|..] && b == c.source + b[|c.source|..];
  }

  lemma RenameOrigin(c: Config, key: string)
    requires c.source <= key
    ensures c.target <= Rename(c, key) && Origin(c, Rename(c, key)) == key
  {
    assert key == c.source + key[|c.source|..];
  }

  /** A key the run would copy again, or copy a second time under another name. */
  predicate Consumes(c: Config, key: string) {
    c.source <= key && !Excluded(c, key) && c.source <= Rename(c, key) && !Excluded(c, Rename(c, key))
  }

  /**
   A copy is never itself picked up for copying, for any key, exactly when the
   target is not a prefix of the source (or is the same non-empty prefix, and
   everything is skipped).
   */
  lemma NeverConsumesExactly(c: Config)
    ensures (forall key :: !Consumes(c, key)) <==> !(c.target <= c.source) || (c.target == c.source && c.target != "")
  {
    if c.target <= c.source && (c.target != c.source || c.target == "") {
      var gap := c.source[|c.target|..];
      var key := c.source + gap;
      assert c.source == c.target + gap;
      assert key[|c.source|..] == gap && Rename(c, key) == c.source;
      assert Consumes(c, key);
    } else {
      forall key | c.source <= key && c.source <= Rename(c, key) ensures !Consumes(c, key) {
        PrefixesNest(c.source, c.target, Rename(c, key));
      }
    }
  }

  /** Every pair built by `main` is on the safe side. */
  lemma MainNeverConsumes(source: string, namespace: string, dryRun: bool, key: string)
    ensures !Consumes(Config(source, TargetPrefix(source, namespace), dryRun), key)
  {
    TargetExtendsSource(source, namespace);
    NeverConsumesExactly(Config(source, TargetPrefix(source, namespace), dryRun));
  }

  lemma PrefixesNest(a: string, b: string, s: string)
    requires a <= s && b <= s
    ensures a <= b || b <= a
  {
    assert a == s[..|a|] && b == s[..|b|];
  }

  // ----- conservation, for every page sequence and every pattern of exceptions

  /** In a real run every scanned key is migrated, skipped or an error; a dry run changes nothing and lists what it would do. */
  lemma {:induction false} Conservation(c: Config, w: World, visits: seq<Visit>)
    requires Matching(c, visits)
    ensures var s, s' := w.stats, MigrateAll(c, w, visits).stats;
      && s'.scanned == s.scanned + |visits|
      && (!c.dryRun ==>
            |visits| == (s'.migrated - s.migrated) + (s'.skipped - s.skipped) + (s'.errors - s.errors))
      && (c.dryRun ==>
            && MigrateAll(c, w, visits).store == w.store && s'.migrated == s.migrated && s'.errors == s.errors
            && |visits| == (s'.skipped - s.skipped) + (|s'.keys| - |s.keys|))
  {
    if visits != [] {
      Conservation(c, w, visits[..|visits| - 1]);
    }
  }

  /** The types agree: Redis and the script accept writing this value over what is there. */
  predicate Fits(v: Value, existing: Option<Entry>) {
    match v
    case Stream => false
    case Str(_) => true
    case Hash(fields) => fields != map[] && (existing.None? || existing.value.value.Hash?)
    case List(items) => items == [] || existing.None? || existing.value.value.List?
    case Set(members) => members == {} || existing.None? || existing.value.value.Set?
    case ZSet(scores) => scores == map[] || existing.None? || existing.value.value.ZSet?
  }

  /** The copy goes through: the key is there, its type is known and fits, and no call raises. */
  predicate Completes(c: Config, store: Store, v: Visit)
    requires c.source <= v.key
  {
    v.fault.Fine? && v.key in store && Fits(store[v.key].value, Find(store, c.target + v.key[|c.source|..]))
  }

  /** The visits whose key already has the target prefix, when the target extends the source. */
  function SkipCount(c: Config, visits: seq<Visit>): nat {
    if visits == [] then 0 else
      SkipCount(c, visits[..|visits| - 1]) +
      if c.source <= c.target && c.target != "" && c.target <= visits[|visits| - 1].key then 1 else 0
  }

  /** The other visits whose copy goes through, each judged by the store it meets. */
  function CopyCount(c: Config, w: World, visits: seq<Visit>): nat
    requires Matching(c, visits)
    decreases |visits|
  {
    if visits == [] then 0 else
      var earlier, v := visits[..|visits| - 1], visits[|visits| - 1];
      CopyCount(c, w, earlier) +
      if c.source <= c.target && c.target != "" && c.target <= v.key then 0
      else if Completes(c, MigrateAll(c, w, earlier).store, v) then 1 else 0
  }

  /** What is listed: old name, new name and outcome of every key that was not skipped, except keys of unknown type. */
  function Listing(c: Config, w: World, visits: seq<Visit>): seq<Record>
    requires Matching(c, visits)
    decreases |visits|
  {
    if visits == [] then [] else
      var earlier, v := visits[..|visits| - 1], visits[|visits| - 1];
      var store, to := MigrateAll(c, w, earlier).store, c.target + v.key[|c.source|..];
      Listing(c, w, earlier) +
      if c.source <= c.target && c.target != "" && c.target <= v.key then []
      else if c.dryRun then [Record(v.key, to, WouldMigrate)]
      else if Completes(c, store, v) then [Record(v.key, to, Migrated)]
      else if v.fault.AtType? || (v.key in store && !store[v.key].value.Stream?) then [Record(v.key, to, Failed)]
      else []
  }

  lemma {:induction false} CopyCompletesExactly(store: Store, key: string, newKey: string, fault: Fault)
    requires KnownType(store, key) && !fault.AtType?
    ensures CopyKey(store, key, newKey, fault).1 <==> fault.Fine? && Fits(store[key].value, Find(store, newKey))
  {
  }

  /**
   Every counter and every listed record, for every page sequence and every
   pattern of exceptions: the skipped keys are those with the target prefix, the
   migrated ones those whose copy went through, the errors all others.
   */
  lemma {:induction false} Accounting(c: Config, w: World, visits: seq<Visit>)
    requires Matching(c, visits)
    ensures var s, s' := w.stats, MigrateAll(c, w, visits).stats;
      && s'.skipped == s.skipped + SkipCount(c, visits)
      && s'.keys == s.keys + Listing(c, w, visits)
      && s'.migrated == s.migrated + (if c.dryRun then 0 else CopyCount(c, w, visits))
      && s'.errors == s.errors + (if c.dryRun then 0 else |visits| - SkipCount(c, visits) - CopyCount(c, w, visits))
    decreases |visits|
  {
    if visits != [] {
      var earlier, v := visits[..|visits| - 1], visits[|visits| - 1];
      Accounting(c, w, earlier);
      VisitAccounting(c, MigrateAll(c, w, earlier), v);
    }
  }

  lemma {:induction false} VisitAccounting(c: Config, w: World, v: Visit)
    requires c.source <= v.key
    ensures var s, s', to := w.stats, MigrateOne(c, w, v).stats, c.target + v.key[|c.source|..];
      if c.source <= c.target && c.target != "" && c.target <= v.key then s' == s.(scanned := s.scanned + 1, skipped := s.skipped + 1)
      else if c.dryRun then s' == s.(scanned := s.scanned + 1, keys := s.keys + [Record(v.key, to, WouldMigrate)])
      else if Completes(c, w.store, v) then
        s' == s.(scanned := s.scanned + 1, migrated := s.migrated + 1, keys := s.keys + [Record(v.key, to, Migrated)])
      else if v.fault.AtType? || (v.key in w.store && !w.store[v.key].value.Stream?) then
        s' == s.(scanned := s.scanned + 1, errors := s.errors + 1, keys := s.keys + [Record(v.key, to, Failed)])
      else s' == s.(scanned := s.scanned + 1, errors := s.errors + 1)
  {
    if KnownType(w.store, v.key) && !v.fault.AtType? {
      CopyCompletesExactly(w.store, v.key, c.target + v.key[|c.source|..], v.fault);
    }
  }

  /** In an error-free run everything that is not skipped is migrated. */
  lemma {:induction false} CleanAccounting(c: Config, w: World, visits: seq<Visit>)
    requires CleanRun(c, w.store, visits)
    ensures Matching(c, visits)
    ensures MigrateAll(c, w, visits).stats.migrated == w.stats.migrated + |visits| - SkipCount(c, visits)
  {
    StoreAfter(c, w, visits, "");
    Accounting(c, w, visits);
  }

  // ----- what a copy leaves behind

  /** Whatever was there before: strings are replaced, hashes and sorted sets overlaid, sets united, lists extended. */
  ghost predicate Merged(v: Value, before: Option<Entry>, after: Value) {
    match v
    case Str(text) => after == Str(text)
    case Hash(fields) =>
      var old_ := if before.Some? && before.value.value.Hash? then before.value.value.fields else map[];
      && after.Hash? && (forall f :: f in after.fields <==> f in fields || f in old_)
      && (forall f :: f in after.fields ==> after.fields[f] == if f in fields then fields[f] else old_[f])
    case Set(members) =>
      after.Set? && forall x :: x in after.members <==>
        x in members || (before.Some? && before.value.value.Set? && x in before.value.value.members)
    case ZSet(scores) =>
      var old_ := if before.Some? && before.value.value.ZSet? then before.value.value.scores else map[];
      && after.ZSet? && (forall m :: m in after.scores <==> m in scores || m in old_)
      && (forall m :: m in after.scores ==> after.scores[m] == if m in scores then scores[m] else old_[m])
    case List(items) =>
      after == List((if before.Some? && before.value.value.List? then before.value.value.items else []) + items)
    case Stream => false
  }

  /** The expiry of a copy: the source's if it is positive, else what the write left, and SET leaves none. */
  function ExpiryAfter(e: Entry, before: Option<Entry>): Option<nat> {
    if e.ttl.Some? && e.ttl.value > 0 then e.ttl
    else if e.value.Str? || before.None? then None
    else before.value.ttl
  }

  predicate EmptyCollection(v: Value) { v == List([]) || v == Set({}) || v == ZSet(map[]) }

  /** A completed copy of a non-empty value, onto anything. */
  lemma {:induction false} CopyMerges(c: Config, w: World, v: Visit)
    requires c.source <= v.key && !c.dryRun && !(c.source <= c.target && c.target != "" && c.target <= v.key)
    requires Completes(c, w.store, v) && !EmptyCollection(w.store[v.key].value)
    ensures var to, store' := c.target + v.key[|c.source|..], MigrateOne(c, w, v).store;
      && to in store' && Merged(w.store[v.key].value, Find(w.store, to), store'[to].value)
      && store'[to].ttl == ExpiryAfter(w.store[v.key], Find(w.store, to))
      && forall k :: k != to ==> Find(store', k) == Find(w.store, k)
  {
    var to := c.target + v.key[|c.source|..];
    var e, before := w.store[v.key], Find(w.store, to);
    WriteMerges(e.value, before);
    CopyCompletesExactly(w.store, v.key, to, Fine);
  }

  lemma {:induction false} WriteMerges(v: Value, before: Option<Entry>)
    requires Fits(v, before) && !EmptyCollection(v)
    ensures Write(v, before).Stored? && Merged(v, before, Write(v, before).entry.value)
    ensures Write(v, before).entry.ttl == if v.Str? || before.None? then None else before.value.ttl
  {
  }

  /** A completed copy of an empty collection writes nothing; at most the expiry of what is there already changes. */
  lemma {:induction false} EmptyCopy(c: Config, w: World, v: Visit)
    requires c.source <= v.key && !c.dryRun && !(c.source <= c.target && c.target != "" && c.target <= v.key)
    requires Completes(c, w.store, v) && EmptyCollection(w.store[v.key].value)
    ensures var to, ttl := c.target + v.key[|c.source|..], w.store[v.key].ttl;
      MigrateOne(c, w, v).store ==
      if ttl.Some? && ttl.value > 0 && to in w.store then w.store[to := w.store[to].(ttl := ttl)] else w.store
  {
    CopyCompletesExactly(w.store, v.key, c.target + v.key[|c.source|..], Fine);
  }

  /** An exception after the write leaves the copy merged, with the expiry the write left. */
  lemma {:induction false} LateFailure(c: Config, w: World, v: Visit)
    requires c.source <= v.key && !c.dryRun && !(c.source <= c.target && c.target != "" && c.target <= v.key)
    requires v.fault.BeforeExpire? && v.key in w.store && !EmptyCollection(w.store[v.key].value)
    requires Fits(w.store[v.key].value, Find(w.store, c.target + v.key[|c.source|..]))
    ensures var e, to, store' := w.store[v.key], c.target + v.key[|c.source|..], MigrateOne(c, w, v).store;
      && to in store' && Merged(e.value, Find(w.store, to), store'[to].value)
      && store'[to].ttl == (if e.value.Str? || to !in w.store then None else w.store[to].ttl)
      && forall k :: k != to ==> Find(store', k) == Find(w.store, k)
  {
    WriteMerges(w.store[v.key].value, Find(w.store, c.target + v.key[|c.source|..]));
  }

  /** A failed copy changes nothing, unless the exception came after the write. */
  lemma {:induction false} FailureLeaves(c: Config, w: World, v: Visit)
    requires c.source <= v.key && !Completes(c, w.store, v) && !v.fault.BeforeExpire?
    ensures MigrateOne(c, w, v).store == w.store
  {
    if KnownType(w.store, v.key) && !v.fault.AtType? {
      CopyCompletesExactly(w.store, v.key, c.target + v.key[|c.source|..], v.fault);
    }
  }

  /** Whatever happens, no key outside the target namespace is touched. */
  lemma {:induction false} OutsideUntouched(c: Config, w: World, visits: seq<Visit>, key: string)
    requires Matching(c, visits) && !(c.target <= key)
    ensures Find(MigrateAll(c, w, visits).store, key) == Find(w.store, key)
  {
    if visits != [] {
      OutsideUntouched(c, w, visits[..|visits| - 1], key);
      RenameOrigin(c, visits[|visits| - 1].key);
    }
  }

  // ----- correctness of a run without exceptions

  /** How often a key was offered for copying. */
  function Hits(c: Config, visits: seq<Visit>, key: string): nat
    decreases |visits|
  {
    if visits == [] then 0 else
      Hits(c, visits[..|visits| - 1], key) +
      if visits[|visits| - 1].key == key && !Excluded(c, key) then 1 else 0
  }

  function Repeat(items: seq<string>, n: nat): seq<string> {
    if n == 0 then [] else Repeat(items, n - 1) + items
  }

  /** The copy after n rounds: equal to the original, except that lists pile up and an expiry under a second is lost. */
  function Copies(e: Entry, n: nat): Entry {
    Entry(if e.value.List? then List(Repeat(e.value.items, n)) else e.value,
          if e.ttl == Some(0) then None else e.ttl)
  }

  /** Redis keeps no empty collections. */
  predicate Copyable(store: Store, key: string) {
    && KnownType(store, key)
    && store[key].value != Hash(map[]) && store[key].value != List([])
    && store[key].value != Set({}) && store[key].value != ZSet(map[])
  }

  /** An exception-free scan of a store whose target namespace starts empty. */
  ghost predicate CleanRun(c: Config, store: Store, visits: seq<Visit>) {
    && !c.dryRun && c.source <= c.target && c.target != ""
    && (forall key :: key in store ==> !(c.target <= key))
    && (forall i :: 0 <= i < |visits| ==>
          && c.source <= visits[i].key && visits[i].fault.Fine?
          && (Excluded(c, visits[i].key) || Copyable(store, visits[i].key)))
  }

  /** What the store must hold under `key` after the visits. */
  function Wanted(c: Config, store: Store, visits: seq<Visit>, key: string): Option<Entry> {
    if c.target <= key then
      var origin := Origin(c, key);
      if Hits(c, visits, origin) > 0 && origin in store then Some(Copies(store[origin], Hits(c, visits, origin))) else None
    else Find(store, key)
  }

  lemma WriteAgain(e: Entry, n: nat)
    requires !e.value.Stream?
    requires e.value != Hash(map[]) && e.value != List([]) && e.value != Set({}) && e.value != ZSet(map[])
    ensures var outcome := Write(e.value, if n == 0 then None else Some(Copies(e, n)));
      && outcome.Stored?
      && outcome.entry.value == Copies(e, n + 1).value
      && (outcome.entry.ttl == None || outcome.entry.ttl == Copies(e, n + 1).ttl)
  {
    match e.value {
      case List(items) =>
        assert Repeat(items, 0) == [] && Repeat(items, 1) == items;
      case Hash(fields) => assert fields + fields == fields;
      case ZSet(scores) => assert scores + scores == scores;
      case Set(members) => assert members + members == members;
      case Str(_) =>
    }
  }

  lemma OriginRename(c: Config, key: string)
    requires c.target <= key
    ensures c.source <= Origin(c, key) && Rename(c, Origin(c, key)) == key
  {
    assert key == c.target + key[|c.target|..];
  }

  lemma CleanPrefix(c: Config, store: Store, visits: seq<Visit>)
    requires CleanRun(c, store, visits) && visits != []
    ensures Matching(c, visits) && CleanRun(c, store, visits[..|visits| - 1])
  {
  }

  /** One copy on top of what the earlier visits left. */
  lemma CopyStep(store0: Store, store: Store, n: nat, key: string, newKey: string)
    requires Copyable(store0, key)
    requires Find(store, key) == Find(store0, key)
    requires Find(store, newKey) == if n > 0 then Some(Copies(store0[key], n)) else None
    ensures KnownType(store, key)
    ensures CopyKey(store, key, newKey, Fine) == (store[newKey := Copies(store0[key], n + 1)], true)
  {
    var e := store0[key];
    WriteAgain(e, n);
    var written := Write(e.value, Find(store, newKey)).entry;
    assert store[newKey := written][newKey := Copies(e, n + 1)] == store[newKey := Copies(e, n + 1)];
  }

  lemma VisitStep(c: Config, store0: Store, w: World, n: nat, v: Visit)
    requires !c.dryRun && c.source <= v.key && !Excluded(c, v.key) && v.fault.Fine?
    requires Copyable(store0, v.key) && Find(w.store, v.key) == Find(store0, v.key)
    requires Find(w.store, Rename(c, v.key)) == if n > 0 then Some(Copies(store0[v.key], n)) else None
    ensures MigrateOne(c, w, v).store == w.store[Rename(c, v.key) := Copies(store0[v.key], n + 1)]
    ensures MigrateOne(c, w, v).stats.errors == w.stats.errors
  {
    CopyStep(store0, w.store, n, v.key, Rename(c, v.key));
  }

  /** After any clean run the store holds, under every key, exactly what is wanted there; and nothing failed. */
  lemma {:induction false} StoreAfter(c: Config, w: World, visits: seq<Visit>, key: string)
    requires CleanRun(c, w.store, visits)
    ensures Matching(c, visits)
    ensures Find(MigrateAll(c, w, visits).store, key) == Wanted(c, w.store, visits, key)
    ensures MigrateAll(c, w, visits).stats.errors == w.stats.errors
    decreases |visits|
  {
    if visits != [] {
      var earlier, v := visits[..|visits| - 1], visits[|visits| - 1];
      CleanPrefix(c, w.store, visits);
      StoreAfter(c, w, earlier, key);
      StoreAfter(c, w, earlier, v.key);
      RenameOrigin(c, v.key);
      StoreAfter(c, w, earlier, Rename(c, v.key));
      StoreStep(c, w.store, MigrateAll(c, w, earlier), visits, key);
    }
  }

  lemma {:induction false} StoreStep(c: Config, store: Store, before: World, visits: seq<Visit>, key: string)
    requires CleanRun(c, store, visits) && visits != []
    requires var earlier, v := visits[..|visits| - 1], visits[|visits| - 1];
      && Find(before.store, key) == Wanted(c, store, earlier, key)
      && Find(before.store, v.key) == Wanted(c, store, earlier, v.key)
      && Find(before.store, Rename(c, v.key)) == Wanted(c, store, earlier, Rename(c, v.key))
    ensures var v := visits[|visits| - 1];
      Find(MigrateOne(c, before, v).store, key) == Wanted(c, store, visits, key) && MigrateOne(c, before, v).stats.errors == before.stats.errors
  {
    var earlier, v := visits[..|visits| - 1], visits[|visits| - 1];
    if !Excluded(c, v.key) {
      var newKey := Rename(c, v.key);
      RenameOrigin(c, v.key);
      VisitStep(c, store, before, Hits(c, earlier, v.key), v);
      if c.target <= key && key != newKey { OriginRename(c, key); }
    }
  }

  /**
   A clean run that visits every source key gives each of them its copy, creates
   nothing else, and leaves every other key as it was.
   */
  lemma MigrationCorrect(c: Config, w: World, visits: seq<Visit>, key: string)
    requires CleanRun(c, w.store, visits)
    requires forall k :: k in w.store && c.source <= k ==> Hits(c, visits, k) > 0
    ensures Matching(c, visits)
    ensures var final := MigrateAll(c, w, visits).store;
      && (!(c.target <= key) ==> Find(final, key) == Find(w.store, key))
      && (key in w.store && c.source <= key ==>
            Find(final, Rename(c, key)) == Some(Copies(w.store[key], Hits(c, visits, key))))
      && (key in final && c.target <= key ==> Origin(c, key) in w.store)
  {
    StoreAfter(c, w, visits, key);
    if c.source <= key {
      RenameOrigin(c, key);
      StoreAfter(c, w, visits, Rename(c, key));
    }
  }

  lemma {:induction false} RepeatLength(items: seq<string>, n: nat)
    ensures |Repeat(items, n)| == n * |items|
  {
    if n > 0 {
      RepeatLength(items, n - 1);
      assert n * |items| == (n - 1) * |items| + |items|;
    }
  }

  lemma RepeatOnce(items: seq<string>, n: nat)
    requires items != []
    ensures Repeat(items, n) == items <==> n == 1
  {
    RepeatLength(items, n);
    assert Repeat(items, 0) == [] && Repeat(items, 1) == items;
    if n > 1 { assert n * |items| >= 2 * |items|; }
  }

  /** The copy equals its original, value and expiry, exactly when no list was returned twice and no expiry was under a second. */
  lemma CopyFaithfulExactly(c: Config, w: World, visits: seq<Visit>, key: string)
    requires CleanRun(c, w.store, visits) && key in w.store && c.source <= key && Hits(c, visits, key) > 0
    requires Copyable(w.store, key)
    ensures Matching(c, visits)
    ensures Find(MigrateAll(c, w, visits).store, Rename(c, key)) == Some(w.store[key])
       <==> (w.store[key].value.List? ==> Hits(c, visits, key) == 1) && w.store[key].ttl != Some(0)
  {
    RenameOrigin(c, key);
    StoreAfter(c, w, visits, Rename(c, key));
    if w.store[key].value.List? {
      RepeatOnce(w.store[key].value.items, Hits(c, visits, key));
    }
  }

  /** SCAN may return a key twice, and then a list really is doubled. */
  lemma ListReturnedTwice()
    ensures var c := Config("a:", "a:b:", false);
      var store: Store := map["a:k" := Entry(List(["x"]), None)];
      var visits := [Visit("a:k", Fine), Visit("a:k", Fine)];
      Matching(c, visits) &&
      Find(MigrateAll(c, World(store, Stats(0, 0, 0, 0, [])), visits).store, "a:b:k") == Some(Entry(List(["x", "x"]), None))
  {
    var c := Config("a:", "a:b:", false);
    var store: Store := map["a:k" := Entry(List(["x"]), None)];
    var v := Visit("a:k", Fine);
    var visits := [v, v];
    assert visits[..1] == [v] && [v][..0] == [];
    assert Hits(c, [v], "a:k") == 1;
    assert Repeat(["x"], 1) == ["x"] && Repeat(["x"], 2) == ["x", "x"];
    assert Rename(c, "a:k") == "a:b:k";
    RenameOrigin(c, "a:k");
    StoreAfter(c, World(store, Stats(0, 0, 0, 0, [])), visits, "a:b:k");
  }
}
