/** The pool evicts the provider whose last use, in the history of the pool, lies furthest back. */
module PoolRecency {
  import opened Common
  import opened Pool

  /** The step uses the instance: a Get is given it, its configuration ends, or a call on it starts. */
  ghost predicate Uses(s: State, e: Event, inst: nat) {
    match e
    case LookUp(key, _) => Holds(s, key, inst) && inst < |s.table| && s.table[inst].alive
    case Recheck(key, _) => Holds(s, key, inst) && inst < |s.table| && s.table[inst].alive
    case ConfigureWorks(key, _) => key in s.flights && s.flights[key] == Configuring(inst)
    case Used(i, _) => i == inst
    case _ => false
  }

  /** The time of such a step. */
  function TimeOf(e: Event): int {
    match e
    case LookUp(_, now) => now
    case Recheck(_, now) => now
    case ConfigureWorks(_, now) => now
    case Used(_, now) => now
    case _ => 0
  }

  /** Which of the first n events was the last to use the instance. */
  ghost function LastUse(states: seq<State>, events: seq<Event>, n: nat, inst: nat): (i: Option<nat>)
    requires |states| == |events| + 1 && n <= |events|
    ensures i.Some? ==> i.value < n && Uses(states[i.value], events[i.value], inst)
    ensures i.Some? ==> forall l :: i.value < l < n ==> !Uses(states[l], events[l], inst)
    ensures i.None? ==> forall l :: 0 <= l < n ==> !Uses(states[l], events[l], inst)
  {
    if n == 0 then None
    else if Uses(states[n - 1], events[n - 1], inst) then Some(n - 1)
    else LastUse(states, events, n - 1, inst)
  }

  ghost function LastTime(states: seq<State>, events: seq<Event>, n: nat, inst: nat): int
    requires |states| == |events| + 1 && n <= |events|
  {
    match LastUse(states, events, n, inst)
    case None => 0
    case Some(i) => TimeOf(events[i])
  }

  lemma StepStamps(s: State, e: Event, inst: nat)
    requires Inv(s) && Enabled(s, e)
    ensures Uses(s, e, inst) ==> inst < |s.table|
    ensures |s.table| <= |Apply(s, e).table|
    ensures inst < |Apply(s, e).table| ==>
      Apply(s, e).table[inst].lastUsed ==
        if Uses(s, e, inst) then TimeOf(e) else if inst < |s.table| then s.table[inst].lastUsed else 0
  {
    hide NoOrphan, FlightsOk, CachedOk, EvictsRightly;
  }

  /** The stamp on an instance is always the time of the last step that used it. */
  lemma {:induction false} StampIsLastUse(states: seq<State>, events: seq<Event>, n: nat, inst: nat)
    requires IsRun(states, events) && n < |states|
    ensures inst < |states[n].table| ==> states[n].table[inst].lastUsed == LastTime(states, events, n, inst)
    ensures inst >= |states[n].table| ==> LastUse(states, events, n, inst).None?
    decreases n
  {
    hide Inv, Enabled, Apply, Uses;
    if n == 0 {
    } else {
      StampIsLastUse(states, events, n - 1, inst);
      RunKeepsInv(states, events, n - 1);
      assert Leads(states, events, n - 1);
      StepStamps(states[n - 1], events[n - 1], inst);
    }
  }

  // ---------------------------------------------------------------- what is pooled has been used

  /** Pooled, or configured and about to be. */
  predicate IsReady(s: State, key: string, inst: nat) {
    Holds(s, key, inst) || (key in s.flights && s.flights[key] == Configured(inst))
  }

  lemma BecomesReady(s: State, e: Event, key: string, inst: nat)
    requires Inv(s) && Enabled(s, e) && IsReady(Apply(s, e), key, inst)
    ensures IsReady(s, key, inst) || Uses(s, e, inst)
  {
    hide NoOrphan, FlightsOk, CachedOk, EvictsRightly;
  }

  lemma {:induction false} ReadyWasUsed(states: seq<State>, events: seq<Event>, n: nat, key: string, inst: nat)
    requires IsRun(states, events) && n < |states| && IsReady(states[n], key, inst)
    ensures LastUse(states, events, n, inst).Some?
    decreases n
  {
    hide Inv, Enabled, Apply, Uses;
    if n == 0 {
    } else {
      RunKeepsInv(states, events, n - 1);
      assert Leads(states, events, n - 1);
      BecomesReady(states[n - 1], events[n - 1], key, inst);
      if IsReady(states[n - 1], key, inst) { ReadyWasUsed(states, events, n - 1, key, inst); }
    }
  }

  // ---------------------------------------------------------------- eviction

  /** Later uses have later times. */
  ghost predicate ClockAdvances(states: seq<State>, events: seq<Event>)
    requires |states| == |events| + 1
  {
    forall i, l, a, b ::
      0 <= i < l < |events| && Uses(states[i], events[i], a) && Uses(states[l], events[l], b) ==>
        TimeOf(events[i]) < TimeOf(events[l])
  }

  lemma UsesOne(s: State, e: Event, a: nat, b: nat)
    requires Uses(s, e, a) && Uses(s, e, b)
    ensures a == b
  {}

  lemma VictimIsLeast(s: State, e: Event, key: string)
    requires Enabled(s, e) && e.Store? && e.victim.Some? && key in s.instances
    ensures e.victim.value in s.instances
    ensures s.instances[e.victim.value] < |s.table| && s.instances[key] < |s.table|
    ensures s.table[s.instances[e.victim.value]].lastUsed <= s.table[s.instances[key]].lastUsed
    ensures e.victim.value != e.key ==> e.victim.value !in Apply(s, e).instances
    ensures Apply(s, e).table[s.instances[e.victim.value]].stopIssued
  {}

  /** A full pool gives up the instance used least recently: looking back over the history, every other
      pooled instance has been used since the victim last was. */
  lemma EvictsLeastRecentlyUsed(states: seq<State>, events: seq<Event>, n: nat, key: string)
    requires IsRun(states, events) && n < |events|
    requires events[n].Store? && events[n].victim.Some? && key in states[n].instances
    ensures
      var victim := events[n].victim.value;
      && victim in states[n].instances
      && states[n].instances[victim] < |states[n + 1].table|
      && states[n + 1].table[states[n].instances[victim]].stopIssued
      && var (v, k) := (states[n].instances[victim], states[n].instances[key]);
         && LastUse(states, events, n, v).Some? && LastUse(states, events, n, k).Some?
         && LastTime(states, events, n, v) <= LastTime(states, events, n, k)
         && (key != victim && ClockAdvances(states, events) ==>
              LastUse(states, events, n, v).value < LastUse(states, events, n, k).value)
  {
    var s := states[n];
    var victim := events[n].victim.value;
    RunKeepsInv(states, events, n);
    assert Leads(states, events, n);
    VictimIsLeast(s, events[n], key);
    var v, k := s.instances[victim], s.instances[key];
    assert Holds(s, victim, v) && Holds(s, key, k);
    assert key != victim ==> v != k;
    hide IsRun, Inv, Enabled, Apply, Uses;
    StampIsLastUse(states, events, n, v);
    StampIsLastUse(states, events, n, k);
    ReadyWasUsed(states, events, n, victim, v);
    ReadyWasUsed(states, events, n, key, k);
    if key != victim && ClockAdvances(states, events) {
      var i, l := LastUse(states, events, n, v).value, LastUse(states, events, n, k).value;
      if i == l { UsesOne(states[i], events[i], v, k); }
    }
  }
}
