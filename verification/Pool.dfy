/** bridge/provider/pool.go: a bounded pool of provider processes, one launch per key at a time.
    An instance is named by its launch order. A step is a section under the pool's lock, a stage
    of the single flight that launches, or something a process does on its own. */
module Pool {
  import opened Common

  /** stopIssued: Stop or Kill has been called, or handed to a goroutine. */
  datatype Instance = Instance(key: string, alive: bool, stopIssued: bool, lastUsed: int)

  /** The stages of the function shared by concurrent Gets of one key. */
  datatype Flight =
    | Checking
    | Spawning
    | Configuring(inst: nat)
    | Configured(inst: nat)
    | Returning

  datatype State = State(
    maxSize: nat,
    table: seq<Instance>,
    instances: map<string, nat>,
    flights: map<string, Flight>)

  datatype Event =
    | LookUp(key: string, now: int)
    | FlightStarts(key: string)
    | Recheck(key: string, now: int)
    | LaunchFails(key: string)
    | Launches(key: string)
    | ConfigureFails(key: string)
    | ConfigureWorks(key: string, now: int)
    | Store(key: string, victim: Option<string>)
    | FlightEnds(key: string)
    | Dies(inst: nat)
    | Used(inst: nat, now: int)
    | Shutdown

  predicate Flying(s: State, key: string, stage: Flight) {
    key in s.flights && s.flights[key] == stage
  }

  predicate Cached(s: State, key: string) {
    key in s.instances && s.instances[key] < |s.table|
  }

  predicate CachedAlive(s: State, key: string) {
    Cached(s, key) && s.table[s.instances[key]].alive
  }

  /** key holds an instance no other cached one was used before. */
  ghost predicate LeastRecentlyUsed(table: seq<Instance>, instances: map<string, nat>, key: string) {
    && key in instances && (forall k :: k in instances ==> instances[k] < |table|)
    && forall k :: k in instances ==> table[instances[key]].lastUsed <= table[instances[k]].lastUsed
  }

  /** Nothing is evicted while there is room; otherwise a least recently used instance is. */
  ghost predicate EvictsRightly(s: State, victim: Option<string>) {
    match victim
    case None => |s.instances| < s.maxSize
    case Some(key) => |s.instances| >= s.maxSize && LeastRecentlyUsed(s.table, s.instances, key)
  }

  ghost predicate Enabled(s: State, e: Event) {
    match e
    case LookUp(key, _) => key != ""
    case FlightStarts(key) => key != "" && key !in s.flights
    case Recheck(key, _) => Flying(s, key, Checking)
    case LaunchFails(key) => Flying(s, key, Spawning)
    case Launches(key) => Flying(s, key, Spawning)
    case ConfigureFails(key) => key in s.flights && s.flights[key].Configuring? && s.flights[key].inst < |s.table|
    case ConfigureWorks(key, _) => key in s.flights && s.flights[key].Configuring? && s.flights[key].inst < |s.table|
    case Store(key, victim) => key in s.flights && s.flights[key].Configured? && EvictsRightly(s, victim)
    case FlightEnds(key) => Flying(s, key, Returning)
    case Dies(inst) => inst < |s.table|
    case Used(inst, _) => inst < |s.table|
    case Shutdown => true
  }

  function Touch(table: seq<Instance>, inst: nat, now: int): (r: seq<Instance>)
    requires inst < |table|
    ensures |r| == |table|
  {
    table[inst := table[inst].(lastUsed := now)]
  }

  function IssueStop(table: seq<Instance>, inst: nat): (r: seq<Instance>)
    requires inst < |table|
    ensures |r| == |table|
  {
    table[inst := table[inst].(stopIssued := true)]
  }

  function LookedUp(s: State, key: string, now: int): State {
    if CachedAlive(s, key) then s.(table := Touch(s.table, s.instances[key], now))
    else if Cached(s, key) then
      s.(instances := s.instances - {key}, table := IssueStop(s.table, s.instances[key]))
    else s
  }

  function Evicted(s: State, victim: Option<string>): State {
    if victim.Some? && Cached(s, victim.value) then
      s.(instances := s.instances - {victim.value}, table := IssueStop(s.table, s.instances[victim.value]))
    else s
  }

  function StopAll(s: State): State {
    s.(table := seq(|s.table|, i requires 0 <= i < |s.table| =>
         if i in s.instances.Values then s.table[i].(stopIssued := true) else s.table[i]),
       instances := map[])
  }

  function Land(s: State, key: string): State {
    s.(flights := s.flights[key := Returning])
  }

  ghost function Apply(s: State, e: Event): (s': State)
    requires Enabled(s, e)
  {
    match e
    case LookUp(key, now) => LookedUp(s, key, now)
    case FlightStarts(key) => s.(flights := s.flights[key := Checking])
    case Recheck(key, now) =>
      if CachedAlive(s, key) then Land(s.(table := Touch(s.table, s.instances[key], now)), key)
      else s.(flights := s.flights[key := Spawning])
    case LaunchFails(key) => Land(s, key)
    case Launches(key) =>
      s.(table := s.table + [Instance(key, true, false, 0)], flights := s.flights[key := Configuring(|s.table|)])
    case ConfigureFails(key) => Land(s.(table := IssueStop(s.table, s.flights[key].inst)), key)
    case ConfigureWorks(key, now) =>
      var inst := s.flights[key].inst;
      s.(table := Touch(s.table, inst, now), flights := s.flights[key := Configured(inst)])
    case Store(key, victim) =>
      var room := Evicted(s, victim);
      Land(room.(instances := room.instances[key := s.flights[key].inst]), key)
    case FlightEnds(key) => s.(flights := s.flights - {key})
    case Dies(inst) => s.(table := s.table[inst := s.table[inst].(alive := false)])
    case Used(inst, now) => s.(table := Touch(s.table, inst, now))
    case Shutdown => StopAll(s)
  }

  // ---------------------------------------------------------------- safety

  predicate Live(s: State, inst: nat) {
    inst < |s.table| && s.table[inst].alive && !s.table[inst].stopIssued
  }

  predicate Holds(s: State, key: string, inst: nat) {
    key in s.instances && s.instances[key] == inst
  }

  predicate InFlight(s: State, key: string, inst: nat) {
    key in s.flights && (s.flights[key] == Configuring(inst) || s.flights[key] == Configured(inst))
  }

  /** A flight past its re-check is the only one that may launch for its key. */
  predicate Launching(s: State, key: string) {
    key in s.flights && (s.flights[key].Spawning? || s.flights[key].Configuring? || s.flights[key].Configured?)
  }

  ghost predicate CachedOk(s: State) {
    forall k, i: nat :: Holds(s, k, i) ==>
      k != "" && i < |s.table| && s.table[i].key == k && !s.table[i].stopIssued
  }

  ghost predicate FlightsOk(s: State) {
    && (forall k :: k in s.flights ==> k != "")
    && (forall k, i: nat :: InFlight(s, k, i) ==>
          i < |s.table| && s.table[i].key == k && !s.table[i].stopIssued && !Holds(s, k, i))
    && (forall k :: Launching(s, k) ==> !CachedAlive(s, k))
  }

  /** Every live process is in the pool's map or in its key's flight. */
  ghost predicate NoOrphan(s: State) {
    forall i: nat :: Live(s, i) ==> Holds(s, s.table[i].key, i) || InFlight(s, s.table[i].key, i)
  }

  ghost predicate Inv(s: State) {
    s.maxSize >= 1 && |s.instances| <= s.maxSize && CachedOk(s) && FlightsOk(s) && NoOrphan(s)
  }

  ghost predicate Initial(s: State) {
    s.maxSize >= 1 && s == State(s.maxSize, [], map[], map[])
  }

  lemma RemoveCount(m: map<string, nat>, key: string)
    requires key in m
    ensures |m - {key}| == |m| - 1
  {
    assert (m - {key}).Keys == m.Keys - {key};
  }

  lemma InsertCount(m: map<string, nat>, key: string, inst: nat)
    ensures |m[key := inst]| <= |m| + 1
    ensures key in m ==> |m[key := inst]| == |m|
  {
    assert m[key := inst].Keys == m.Keys + {key};
  }

  /** An instance of the key leaves the map, with its stop issued. */
  lemma DropKeepsInv(s: State, key: string)
    requires Inv(s) && key in s.instances && s.instances[key] < |s.table|
    ensures Inv(s.(instances := s.instances - {key}, table := IssueStop(s.table, s.instances[key])))
  {
    var inst := s.instances[key];
    var s' := s.(instances := s.instances - {key}, table := IssueStop(s.table, inst));
    RemoveCount(s.instances, key);
    assert Holds(s, key, inst);
    assert CachedOk(s') by {
      forall k, i: nat | Holds(s', k, i)
        ensures k != "" && i < |s'.table| && s'.table[i].key == k && !s'.table[i].stopIssued
      {
        assert Holds(s, k, i) && k != key;
      }
    }
    assert FlightsOk(s') by {
      forall k, i: nat | InFlight(s', k, i)
        ensures i < |s'.table| && s'.table[i].key == k && !s'.table[i].stopIssued && !Holds(s', k, i)
      {
        assert InFlight(s, k, i);
        assert i == inst ==> k == key;
      }
      forall k | Launching(s', k) ensures !CachedAlive(s', k) {
        assert Launching(s, k);
      }
    }
    assert NoOrphan(s') by {
      forall i: nat | Live(s', i) ensures Holds(s', s'.table[i].key, i) || InFlight(s', s'.table[i].key, i) {
        assert Live(s, i) && i != inst;
        if Holds(s, s.table[i].key, i) { assert s.table[i].key != key; }
      }
    }
  }

  /** Only times of use, and lives ending, change. */
  lemma TableKeepsInv(s: State, table: seq<Instance>)
    requires Inv(s) && |table| == |s.table|
    requires forall i :: 0 <= i < |table| ==>
      && table[i].key == s.table[i].key && table[i].stopIssued == s.table[i].stopIssued
      && (table[i].alive ==> s.table[i].alive)
    ensures Inv(s.(table := table))
  {
    var s' := s.(table := table);
    assert FlightsOk(s') by {
      forall k | Launching(s', k) ensures !CachedAlive(s', k) {
        assert Launching(s, k);
      }
      forall k, i: nat | InFlight(s', k, i)
        ensures i < |s'.table| && s'.table[i].key == k && !s'.table[i].stopIssued && !Holds(s', k, i)
      {
        assert InFlight(s, k, i) && !Holds(s, k, i);
      }
    }
    assert CachedOk(s') by {
      forall k, i: nat | Holds(s', k, i)
        ensures k != "" && i < |s'.table| && s'.table[i].key == k && !s'.table[i].stopIssued
      {
        assert Holds(s, k, i);
      }
    }
    assert NoOrphan(s') by {
      forall i: nat | Live(s', i) ensures Holds(s', s'.table[i].key, i) || InFlight(s', s'.table[i].key, i) {
        assert Live(s, i);
      }
    }
  }

  /** A flight moves to a stage that holds no instance, none being lost by it. */
  lemma StageKeepsInv(s: State, key: string, flights: map<string, Flight>)
    requires Inv(s) && key != ""
    requires forall k :: k != key ==> (k in flights <==> k in s.flights) && (k in flights ==> flights[k] == s.flights[k])
    requires key in flights ==> !flights[key].Configuring? && !flights[key].Configured?
    requires key in flights && flights[key].Spawning? ==> !CachedAlive(s, key)
    requires forall i: nat :: InFlight(s, key, i) ==> !Live(s, i)
    ensures Inv(s.(flights := flights))
  {
    var s' := s.(flights := flights);
    assert CachedOk(s') by {
      forall k, i: nat | Holds(s', k, i)
        ensures k != "" && i < |s'.table| && s'.table[i].key == k && !s'.table[i].stopIssued
      {
        assert Holds(s, k, i);
      }
    }
    assert FlightsOk(s') by {
      forall k, i: nat | InFlight(s', k, i)
        ensures i < |s'.table| && s'.table[i].key == k && !s'.table[i].stopIssued && !Holds(s', k, i)
      {
        assert InFlight(s, k, i);
      }
      forall k | Launching(s', k) ensures !CachedAlive(s', k) {
        if k != key { assert Launching(s, k); }
      }
    }
    assert NoOrphan(s') by {
      forall i: nat | Live(s', i) ensures Holds(s', s'.table[i].key, i) || InFlight(s', s'.table[i].key, i) {
        assert Live(s, i);
      }
    }
  }

  /** Failing to configure stops the process the flight launched. */
  lemma ConfigureFailsKeepsInv(s: State, e: Event)
    requires Inv(s) && Enabled(s, e) && e.ConfigureFails?
    ensures Inv(Apply(s, e))
  {
    var inst := s.flights[e.key].inst;
    var s' := Apply(s, e);
    assert InFlight(s, e.key, inst) && Launching(s, e.key);
    assert CachedOk(s') by {
      forall k, i: nat | Holds(s', k, i)
        ensures k != "" && i < |s'.table| && s'.table[i].key == k && !s'.table[i].stopIssued
      {
        assert Holds(s, k, i);
      }
    }
    assert FlightsOk(s') by {
      forall k, i: nat | InFlight(s', k, i)
        ensures i < |s'.table| && s'.table[i].key == k && !s'.table[i].stopIssued && !Holds(s', k, i)
      {
        assert InFlight(s, k, i) && k != e.key;
      }
      forall k | Launching(s', k) ensures !CachedAlive(s', k) {
        assert Launching(s, k);
      }
    }
    assert NoOrphan(s') by {
      forall i: nat | Live(s', i) ensures Holds(s', s'.table[i].key, i) || InFlight(s', s'.table[i].key, i) {
        assert Live(s, i) && i != inst;
      }
    }
  }

  lemma LaunchesKeepsInv(s: State, e: Event)
    requires Inv(s) && Enabled(s, e) && e.Launches?
    ensures Inv(Apply(s, e))
  {
    var s' := Apply(s, e);
    var n := |s.table|;
    assert Launching(s, e.key);
    assert CachedOk(s') by {
      forall k, i: nat | Holds(s', k, i)
        ensures k != "" && i < |s'.table| && s'.table[i].key == k && !s'.table[i].stopIssued
      {
        assert Holds(s, k, i);
      }
    }
    assert FlightsOk(s') by {
      forall k, i: nat | InFlight(s', k, i)
        ensures i < |s'.table| && s'.table[i].key == k && !s'.table[i].stopIssued && !Holds(s', k, i)
      {
        if k == e.key { assert i == n; assert !Holds(s, k, n); } else { assert InFlight(s, k, i); }
      }
      forall k | Launching(s', k) ensures !CachedAlive(s', k) {
        assert Launching(s, k);
        if k in s.instances { assert Holds(s, k, s.instances[k]); }
      }
    }
    assert NoOrphan(s') by {
      forall i: nat | Live(s', i) ensures Holds(s', s'.table[i].key, i) || InFlight(s', s'.table[i].key, i) {
        if i < n {
          assert Live(s, i);
          assert !InFlight(s, e.key, i);
        } else {
          assert InFlight(s', e.key, n);
        }
      }
    }
  }

  lemma ConfigureWorksKeepsInv(s: State, e: Event)
    requires Inv(s) && Enabled(s, e) && e.ConfigureWorks?
    ensures Inv(Apply(s, e))
  {
    var inst := s.flights[e.key].inst;
    var t := s.(table := Touch(s.table, inst, e.now));
    TableKeepsInv(s, t.table);
    var s' := Apply(s, e);
    assert forall k, i: nat :: InFlight(s', k, i) <==> InFlight(t, k, i);
    assert forall k :: Launching(s', k) <==> Launching(t, k);
    assert forall k, i: nat :: Holds(s', k, i) <==> Holds(t, k, i);
    assert forall k :: CachedAlive(s', k) <==> CachedAlive(t, k);
    assert forall i: nat :: Live(s', i) <==> Live(t, i);
  }

  /** The launched instance enters the map under its key, in place of a dead one if any. */
  lemma EnterKeepsInv(s: State, key: string)
    requires Inv(s) && key in s.flights && s.flights[key].Configured?
    requires |s.instances| < s.maxSize
    ensures Inv(Land(s.(instances := s.instances[key := s.flights[key].inst]), key))
  {
    var inst := s.flights[key].inst;
    var s' := Land(s.(instances := s.instances[key := inst]), key);
    InsertCount(s.instances, key, inst);
    assert InFlight(s, key, inst) && Launching(s, key) && !CachedAlive(s, key);
    assert CachedOk(s') by {
      forall k, i: nat | Holds(s', k, i)
        ensures k != "" && i < |s'.table| && s'.table[i].key == k && !s'.table[i].stopIssued
      {
        if k != key { assert Holds(s, k, i); }
      }
    }
    assert FlightsOk(s') by {
      forall k, i: nat | InFlight(s', k, i)
        ensures i < |s'.table| && s'.table[i].key == k && !s'.table[i].stopIssued && !Holds(s', k, i)
      {
        assert InFlight(s, k, i) && k != key && !Holds(s, k, i);
      }
      forall k | Launching(s', k) ensures !CachedAlive(s', k) {
        assert Launching(s, k) && k != key;
      }
    }
    assert NoOrphan(s') by {
      forall i: nat | Live(s', i) ensures Holds(s', s'.table[i].key, i) || InFlight(s', s'.table[i].key, i) {
        assert Live(s, i);
        if s.table[i].key == key && i != inst {
          assert !InFlight(s, key, i);
          assert Holds(s, key, i);
          assert CachedAlive(s, key);
        }
      }
    }
  }

  lemma StoreKeepsInv(s: State, e: Event)
    requires Inv(s) && Enabled(s, e) && e.Store?
    ensures Inv(Apply(s, e))
  {
    var room := Evicted(s, e.victim);
    if e.victim.Some? {
      var key := e.victim.value;
      assert Holds(s, key, s.instances[key]);
      DropKeepsInv(s, key);
      RemoveCount(s.instances, key);
    }
    EnterKeepsInv(room, e.key);
  }

  lemma ShutdownKeepsInv(s: State)
    requires Inv(s)
    ensures Inv(StopAll(s))
  {
    var s' := StopAll(s);
    assert FlightsOk(s') by {
      forall k, i: nat | InFlight(s', k, i)
        ensures i < |s'.table| && s'.table[i].key == k && !s'.table[i].stopIssued && !Holds(s', k, i)
      {
        assert InFlight(s, k, i) && !Holds(s, k, i);
        if i in s.instances.Values {
          var q :| q in s.instances && s.instances[q] == i;
          assert Holds(s, q, i);
          assert false;
        }
      }
    }
    assert NoOrphan(s') by {
      forall i: nat | Live(s', i) ensures Holds(s', s'.table[i].key, i) || InFlight(s', s'.table[i].key, i) {
        assert Live(s, i);
        assert Holds(s, s.table[i].key, i) ==> i in s.instances.Values;
      }
    }
  }

  lemma StepKeepsInv(s: State, e: Event)
    requires Inv(s) && Enabled(s, e)
    ensures Inv(Apply(s, e)) && Apply(s, e).maxSize == s.maxSize
  {
    hide CachedOk, FlightsOk, NoOrphan, EvictsRightly;
    match e
    case LookUp(key, now) =>
      if CachedAlive(s, key) { TableKeepsInv(s, Touch(s.table, s.instances[key], now)); }
      else if Cached(s, key) { DropKeepsInv(s, key); }
    case FlightStarts(key) => StageKeepsInv(s, key, s.flights[key := Checking]);
    case Recheck(key, now) =>
      FlightKeyNamed(s, key);
      if CachedAlive(s, key) {
        var t := s.(table := Touch(s.table, s.instances[key], now));
        TableKeepsInv(s, t.table);
        StageKeepsInv(t, key, t.flights[key := Returning]);
      } else {
        StageKeepsInv(s, key, s.flights[key := Spawning]);
      }
    case LaunchFails(key) => FlightKeyNamed(s, key); StageKeepsInv(s, key, s.flights[key := Returning]);
    case FlightEnds(key) => FlightKeyNamed(s, key); StageKeepsInv(s, key, s.flights - {key});
    case Launches(_) => LaunchesKeepsInv(s, e);
    case ConfigureFails(_) => ConfigureFailsKeepsInv(s, e);
    case ConfigureWorks(_, _) => ConfigureWorksKeepsInv(s, e);
    case Store(_, _) => StoreKeepsInv(s, e);
    case Dies(_) => TableKeepsInv(s, Apply(s, e).table);
    case Used(_, _) => TableKeepsInv(s, Apply(s, e).table);
    case Shutdown => ShutdownKeepsInv(s);
  }

  lemma FlightKeyNamed(s: State, key: string)
    requires Inv(s) && key in s.flights
    ensures key != ""
  {
  }

  /** events[i] leads from states[i] to states[i + 1], from an empty pool. */
  ghost predicate IsRun(states: seq<State>, events: seq<Event>) {
    && |states| == |events| + 1 && Initial(states[0])
    && forall i :: 0 <= i < |events| ==> Leads(states, events, i)
  }

  ghost predicate Leads(states: seq<State>, events: seq<Event>, i: nat)
    requires |states| == |events| + 1 && i < |events|
  {
    Enabled(states[i], events[i]) && states[i + 1] == Apply(states[i], events[i])
  }

  lemma {:induction false} RunKeepsInv(states: seq<State>, events: seq<Event>, i: nat)
    requires IsRun(states, events) && i < |states|
    ensures Inv(states[i]) && states[i].maxSize == states[0].maxSize
  {
    hide Inv, Enabled, Apply, Initial;
    if i > 0 {
      RunKeepsInv(states, events, i - 1);
      assert Leads(states, events, i - 1);
      StepKeepsInv(states[i - 1], events[i - 1]);
    } else {
      InitialInv(states[0]);
    }
  }

  lemma InitialInv(s: State)
    requires Initial(s)
    ensures Inv(s)
  {}

  /** In every interleaving: the pool never exceeds its size, no key has two live processes, and
      every live process is in the map or in the one flight of its key. */
  lemma PoolIsSafe(states: seq<State>, events: seq<Event>, i: nat)
    requires IsRun(states, events) && i < |states|
    ensures
      var s := states[i];
      && |s.instances| <= states[0].maxSize
      && (forall p: nat, q: nat :: Live(s, p) && Live(s, q) && s.table[p].key == s.table[q].key ==> p == q)
      && (forall p: nat :: Live(s, p) ==> Holds(s, s.table[p].key, p) || InFlight(s, s.table[p].key, p))
  {
    RunKeepsInv(states, events, i);
    var s := states[i];
    forall p: nat, q: nat | Live(s, p) && Live(s, q) && s.table[p].key == s.table[q].key ensures p == q {
      var k := s.table[p].key;
      assert (Holds(s, k, p) || InFlight(s, k, p)) && (Holds(s, k, q) || InFlight(s, k, q));
      assert InFlight(s, k, p) || InFlight(s, k, q) ==> Launching(s, k);
    }
  }

  // ---------------------------------------------------------------- the locked sections

  /** The map the lock protects. The instances themselves live in table. */
  class ProviderPool {
    const maxSize: nat
    var table: seq<Instance>
    var instances: map<string, nat>

    ghost function View(flights: map<string, Flight>): State
      reads this
    {
      State(maxSize, table, instances, flights)
    }

    ghost predicate Valid()
      reads this
    {
      maxSize >= 1 && forall k :: k in instances ==> k != "" && instances[k] < |table|
    }

    /** A size of zero or less means the default of 20. */
    constructor (size: int)
      ensures Valid() && Initial(View(map[])) && maxSize == (if size <= 0 then 20 else size)
    {
      maxSize := if size <= 0 then 20 else size;
      table, instances := [], map[];
    }

    /** The fast path: a live instance is touched and returned, a dead one removed and killed. */
    method LookUp(key: string, now: int) returns (found: Option<nat>)
      requires Valid() && key != ""
      modifies this
      ensures Valid()
      ensures forall flights :: View(flights) == Apply(old(View(flights)), Event.LookUp(key, now))
      ensures found.Some? <==> key in old(instances) && old(table)[old(instances)[key]].alive
      ensures found.Some? ==>
        && found == Some(old(instances)[key]) && instances == old(instances)
        && table == old(table)[found.value := old(table)[found.value].(lastUsed := now)]
      ensures found.None? && key in old(instances) ==>
        && instances == old(instances) - {key} && |table| == |old(table)|
        && table[old(instances)[key]].stopIssued
      ensures found.None? && key !in old(instances) ==> instances == old(instances) && table == old(table)
    {
      found := None;
      if key in instances {
        var inst := instances[key];
        if table[inst].alive {
          table := table[inst := table[inst].(lastUsed := now)];
          return Some(inst);
        }
        instances := instances - {key};
        table := table[inst := table[inst].(stopIssued := true)];
      }
    }

    /** Scans the map in any order, keeping a strictly older instance each time. */
    method LeastRecentlyUsedKey() returns (lruKey: string)
      requires Valid()
      ensures instances == map[] ==> lruKey == ""
      ensures instances != map[] ==> LeastRecentlyUsed(table, instances, lruKey)
    {
      lruKey := "";
      var lruTime := 0;
      var todo := instances.Keys;
      while todo != {}
        invariant todo <= instances.Keys
        invariant lruKey == "" <==> todo == instances.Keys
        invariant lruKey != "" ==> lruKey in instances && lruTime == table[instances[lruKey]].lastUsed
        invariant lruKey != "" ==> forall k :: k in instances && k !in todo ==> lruTime <= table[instances[k]].lastUsed
        decreases todo
      {
        var k :| k in todo;
        if lruKey == "" || table[instances[k]].lastUsed < lruTime {
          lruKey := k;
          lruTime := table[instances[k]].lastUsed;
        }
        todo := todo - {k};
      }
      if lruKey != "" {
        assert forall k :: k in instances ==> k !in todo;
      } else {
        assert instances.Keys == {};
      }
    }

    method EvictIfNeeded() returns (victim: Option<string>)
      requires Valid()
      modifies this
      ensures Valid()
      ensures forall flights :: EvictsRightly(old(View(flights)), victim)
      ensures forall flights :: View(flights) == Evicted(old(View(flights)), victim)
    {
      if |instances| < maxSize {
        return None;
      }
      var lruKey := LeastRecentlyUsedKey();
      assert instances != map[];
      var evicted := instances[lruKey];
      instances := instances - {lruKey};
      table := table[evicted := table[evicted].(stopIssued := true)];
      victim := Some(lruKey);
    }

    /** The flight's last section: make room, then publish the configured instance. */
    method Put(key: string, inst: nat, ghost flights: map<string, Flight>) returns (victim: Option<string>)
      requires Valid() && key != "" && inst < |table|
      requires key in flights && flights[key] == Configured(inst)
      modifies this
      ensures Valid()
      ensures Enabled(old(View(flights)), Store(key, victim))
      ensures View(flights[key := Returning]) == Apply(old(View(flights)), Store(key, victim))
    {
      victim := EvictIfNeeded();
      assert View(flights) == Evicted(old(View(flights)), victim);
      instances := instances[key := inst];
    }

    method Shutdown() returns (stopped: set<nat>)
      requires Valid()
      modifies this
      ensures Valid() && stopped == old(instances).Values
      ensures forall flights :: View(flights) == Apply(old(View(flights)), Event.Shutdown)
    {
      stopped := instances.Values;
      instances := map[];
      var t := table;
      table := seq(|t|, i requires 0 <= i < |t| => if i in stopped then t[i].(stopIssued := true) else t[i]);
    }
  }
}
