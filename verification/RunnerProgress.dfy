/** The runner makes progress: work on the artifacts there are is bounded, and no waiting
    artifact starves. */
module RunnerProgress {
  import opened Common
  import opened ArtifactStore
  import opened Runner
  import opened RunnerSafety
  import opened RunnerLaws

  // ---------------------------------------------------------------- a decreasing measure

  /** A fulfilment past its start is working on the artifact. */
  ghost predicate RunUnderWay(s: System, id: nat) {
    exists w: nat :: WorksOn(s, w, id) && s.works[w].stage != Started
  }

  ghost function Rank(s: System, id: nat): (rank: nat)
    requires id < |s.artifacts|
  {
    match s.artifacts[id].status
    case Pending => 3
    case Running => if RunUnderWay(s, id) then 5 else 2
    case Failed => 4
    case Ready => 1
    case Rejected => 0
    case Superseded => 0
  }

  /** The pair (remaining runs, status rank) in lexicographic order, as one number. */
  ghost function Weight(s: System, id: nat): (weight: int)
    requires id < |s.artifacts|
  {
    6 * (MAX_OPERATIONAL_RUNS - CountRuns(s.runs, id)) + Rank(s, id)
  }

  const NEW_WEIGHT: nat := 21

  /** The weights of the first n artifacts. */
  ghost function WeightOf(s: System, n: nat): (total: int)
    requires n <= |s.artifacts|
  {
    if n == 0 then 0 else WeightOf(s, n - 1) + Weight(s, n - 1)
  }

  ghost function Measure(s: System): (total: int) {
    WeightOf(s, |s.artifacts|)
  }

  lemma {:induction false} WeightOfMonotone(s: System, s': System, n: nat)
    requires n <= |s.artifacts| && n <= |s'.artifacts|
    requires forall id :: 0 <= id < n ==> Weight(s', id) <= Weight(s, id)
    ensures WeightOf(s', n) <= WeightOf(s, n)
    ensures forall id :: 0 <= id < n && Weight(s', id) < Weight(s, id) ==> WeightOf(s', n) < WeightOf(s, n)
  {
    hide Weight;
    if n == 0 {
    } else {
      WeightOfMonotone(s, s', n - 1);
    }
  }

  lemma {:induction false} WeightsAreNatural(s: System, n: nat)
    requires Inv(s) && n <= |s.artifacts|
    ensures WeightOf(s, n) >= 0
  {
    hide CountRuns, OneReady, ClaimsExclusive, WorksExclusive, RunnersOk, Rank;
    if n == 0 {
    } else {
      WeightsAreNatural(s, n - 1);
    }
  }

  /** The step claims, runs, settles, requeues or supersedes artifact id. */
  ghost predicate Advances(s: System, e: Event, id: nat)
    requires Enabled(s, e)
  {
    id < |s.artifacts| && match e
    case ClaimArrives(r, ids, _) => id in ids
    case RequeueArrives(r, before, _) =>
      var runner := s.runners[r];
      Requeues(s.artifacts[id], id, s.runs, runner.name, runner.version, runner.tick.runCount, before, runner.tick.excluded)
    case RunStarts(w, _) => s.works[w].artifactId == id
    case ReadyArrives(w, _, _) => s.works[w].artifactId == id || Supersedes(s.artifacts, s.works[w].key, s.works[w].artifactId, id)
    case RejectedArrives(w, _, _) => s.works[w].artifactId == id
    case FailedArrives(w, _, _) => s.works[w].artifactId == id
    case Dumped(key, _) => Dumps(s.artifacts, key, id)
    case _ => false
  }

  /** Works are carried over, except that a step may change the stage of one. */
  lemma UnderWayKept(s: System, s': System, id: nat)
    requires forall w: nat :: WorksOn(s', w, id) && s'.works[w].stage != Started ==>
      WorksOn(s, w, id) && s.works[w].stage != Started
    ensures RunUnderWay(s', id) ==> RunUnderWay(s, id)
  {
  }

  lemma WeightAfterRunStart(s: System, e: Event, id: nat)
    requires Inv(s) && Enabled(s, e) && id < |s.artifacts| && e.RunStarts?
    ensures id < |Apply(s, e).artifacts|
    ensures Weight(Apply(s, e), id) <= Weight(s, id)
    ensures Advances(s, e, id) ==> Weight(Apply(s, e), id) < Weight(s, id)
  {
    hide Inv, CountRuns;
    var s' := Apply(s, e);
    var subject := s.works[e.w].artifactId;
    WorkIsExclusive(s, e.w);
    CountRunsPush(s.runs, Run(subject, e.at, RunRunning, OPEN), id);
    if id == subject {
      assert !RunUnderWay(s, id) by {
        forall w: nat ensures !(WorksOn(s, w, id) && s.works[w].stage != Started) {
          assert WorksOn(s, w, id) ==> w == e.w;
        }
      }
    } else {
      forall w: nat | WorksOn(s', w, id) && s'.works[w].stage != Started
        ensures WorksOn(s, w, id) && s.works[w].stage != Started
      {
      }
      UnderWayKept(s, s', id);
    }
  }

  /** A fulfilment's other steps put no run under way that was not. */
  lemma UnderWayAfterWork(s: System, e: Event, id: nat)
    requires Inv(s) && Enabled(s, e) && id < |s.artifacts|
    requires e.PhaseArrives? || e.AttemptsEnd? || Settling(e) || e.Abandon? || e.Leave?
    ensures RunUnderWay(Apply(s, e), id) ==> RunUnderWay(s, id)
    ensures Settles(s, e, id) ==> RunUnderWay(s, id) && s.artifacts[id].status == Running
  {
    hide Inv, CountRuns, MarkReady;
    var s' := Apply(s, e);
    forall w: nat | WorksOn(s', w, id) && s'.works[w].stage != Started
      ensures WorksOn(s, w, id) && s.works[w].stage != Started
    {
      if w == e.w { assert WorksOn(s, w, s.works[e.w].artifactId); }
    }
    UnderWayKept(s, s', id);
    if Settles(s, e, id) {
      WorkIsExclusive(s, e.w);
      assert WorksOn(s, e.w, id);
    }
  }

  predicate Settling(e: Event) {
    e.ReadyArrives? || e.RejectedArrives? || e.FailedArrives?
  }

  predicate Settles(s: System, e: Event, id: nat) {
    Settling(e) && e.w < |s.works| && s.works[e.w].artifactId == id
  }

  predicate SubjectExists(s: System, e: Event) {
    Settling(e) ==> e.w < |s.works| && s.works[e.w].artifactId < |s.artifacts|
  }

  lemma SettledSubject(s: System, e: Event)
    requires Inv(s) && Enabled(s, e)
    ensures SubjectExists(s, e)
  {
    hide Inv;
    if Settling(e) { WorkIsExclusive(s, e.w); }
  }

  predicate IsSupersession(before: Status, after: Status) {
    before == Ready && after == Superseded
  }

  lemma StatusAfterWork(s: System, e: Event, id: nat)
    requires Enabled(s, e) && id < |s.artifacts| && SubjectExists(s, e)
    requires e.PhaseArrives? || e.AttemptsEnd? || Settling(e) || e.Abandon? || e.Leave?
    ensures id < |Apply(s, e).artifacts| && Apply(s, e).runs == s.runs
    ensures
      var before, after := s.artifacts[id].status, Apply(s, e).artifacts[id].status;
      var settled := Settles(s, e, id);
      && (if settled then after == Ready || after == Rejected || after == Failed
          else after == before || IsSupersession(before, after))
      && (Advances(s, e, id) ==> settled || IsSupersession(before, after))
  {
    hide CountRuns;
  }

  lemma WeightAfterWork(s: System, e: Event, id: nat)
    requires Inv(s) && Enabled(s, e) && id < |s.artifacts|
    requires e.PhaseArrives? || e.AttemptsEnd? || Settling(e) || e.Abandon? || e.Leave?
    ensures id < |Apply(s, e).artifacts|
    ensures Weight(Apply(s, e), id) <= Weight(s, id)
    ensures Advances(s, e, id) ==> Weight(Apply(s, e), id) < Weight(s, id)
  {
    hide Inv, CountRuns, RunUnderWay, Apply, Enabled, Advances;
    UnderWayAfterWork(s, e, id);
    SettledSubject(s, e);
    StatusAfterWork(s, e, id);
  }

  lemma WeightAfterTick(s: System, e: Event, id: nat)
    requires Inv(s) && Enabled(s, e) && id < |s.artifacts|
    requires !(e.RunStarts? || e.PhaseArrives? || e.AttemptsEnd? || e.ReadyArrives? || e.RejectedArrives?
      || e.FailedArrives? || e.Abandon? || e.Leave?)
    ensures id < |Apply(s, e).artifacts|
    ensures Weight(Apply(s, e), id) <= Weight(s, id)
    ensures Advances(s, e, id) ==> Weight(Apply(s, e), id) < Weight(s, id)
  {
    hide Inv, CountRuns, SortedByAge, WaitingAhead, Unheld, NewWorks, WorkKey;
    var s' := Apply(s, e);
    if e.ClaimArrives? {
      var runner := s.runners[e.r];
      assert id in e.ids <==> Claims(s.artifacts, runner.name, runner.version, runner.tick.limit, id);
      if id in e.ids { PendingIsUntouched(s, id); }
    }
    if e.Adopt? {
      NewWorksAreStarted(s, e.r, Unheld(s.runners[e.r].tick.ids, s.runners[e.r].active));
    }
    forall w: nat | WorksOn(s', w, id) && s'.works[w].stage != Started
      ensures WorksOn(s, w, id) && s.works[w].stage != Started
    {
    }
    UnderWayKept(s, s', id);
  }

  lemma PendingIsUntouched(s: System, id: nat)
    requires Inv(s) && id < |s.artifacts| && s.artifacts[id].status == Pending
    ensures !RunUnderWay(s, id)
  {
    hide CountRuns, OneReady, ClaimsExclusive, RunsBounded, RunnersOk;
  }

  lemma {:induction false} NewWorksAreStarted(s: System, r: nat, ids: seq<nat>)
    requires r in s.runners
    ensures forall k :: 0 <= k < |NewWorks(s, r, ids)| ==> NewWorks(s, r, ids)[k].stage == Started
  {
    if ids == [] {
    } else {
      NewWorksAreStarted(s, r, ids[1..]);
    }
  }

  /** No step ever adds weight to an artifact, and a step that advances one takes weight off it. */
  lemma WeightDecreases(s: System, e: Event, id: nat)
    requires Inv(s) && Enabled(s, e) && id < |s.artifacts|
    ensures id < |Apply(s, e).artifacts|
    ensures Weight(Apply(s, e), id) <= Weight(s, id)
    ensures Advances(s, e, id) ==> Weight(Apply(s, e), id) < Weight(s, id)
  {
    hide Inv, Weight, Advances, Apply, Enabled;
    if e.RunStarts? {
      WeightAfterRunStart(s, e, id);
    } else if e.PhaseArrives? || e.AttemptsEnd? || Settling(e) || e.Abandon? || e.Leave? {
      WeightAfterWork(s, e, id);
    } else {
      WeightAfterTick(s, e, id);
    }
  }

  ghost predicate IsProgress(s: System, e: Event)
    requires Enabled(s, e)
  {
    exists id: nat :: Advances(s, e, id)
  }

  /** The measure never grows except when an artifact is created, and every claim, run start,
      settlement, requeue and supersession strictly decreases it. */
  lemma MeasureDecreases(s: System, e: Event)
    requires Inv(s) && Enabled(s, e)
    ensures e.Create? ==> Measure(Apply(s, e)) <= Measure(s) + NEW_WEIGHT
    ensures !e.Create? ==> Measure(Apply(s, e)) <= Measure(s)
    ensures IsProgress(s, e) ==> Measure(Apply(s, e)) < Measure(s)
  {
    hide Inv, Weight, WeightOf, Advances;
    var s' := Apply(s, e);
    var n := |s.artifacts|;
    forall id | 0 <= id < n
      ensures id < |s'.artifacts| && Weight(s', id) <= Weight(s, id)
      ensures Advances(s, e, id) ==> Weight(s', id) < Weight(s, id)
    {
      WeightDecreases(s, e, id);
    }
    assert n <= |s'.artifacts| by { if n > 0 { assert n - 1 < |s'.artifacts|; } }
    WeightOfMonotone(s, s', n);
    if e.Create? {
      NewArtifactWeight(s, e);
      NothingAdvances(s, e);
    } else {
      assert |s'.artifacts| == n by { SameLength(s, e); }
      if id: nat :| Advances(s, e, id) {
        AdvancesKnown(s, e, id);
      }
    }
  }

  lemma AdvancesKnown(s: System, e: Event, id: nat)
    requires Enabled(s, e) && Advances(s, e, id)
    ensures id < |s.artifacts|
  {
  }

  lemma NothingAdvances(s: System, e: Event)
    requires Enabled(s, e) && e.Create?
    ensures !IsProgress(s, e)
  {
  }

  lemma SameLength(s: System, e: Event)
    requires Enabled(s, e) && !e.Create?
    ensures |Apply(s, e).artifacts| == |s.artifacts|
  {
  }

  lemma NewArtifactWeight(s: System, e: Event)
    requires Inv(s) && Enabled(s, e) && e.Create?
    ensures
      var s' := Apply(s, e);
      |s'.artifacts| == |s.artifacts| + 1 && WeightOf(s', |s'.artifacts|) <= WeightOf(s', |s.artifacts|) + NEW_WEIGHT
  {
    hide WeightOf, ClaimsExclusive, WorksExclusive, RunnersOk;
    var s' := Apply(s, e);
    NoRunsYet(s.runs, |s.artifacts|);
    assert Weight(s', |s.artifacts|) == NEW_WEIGHT;
    LastWeight(s', |s'.artifacts|);
  }

  lemma LastWeight(s: System, n: nat)
    requires 0 < n <= |s.artifacts|
    ensures WeightOf(s, n) == WeightOf(s, n - 1) + Weight(s, n - 1)
  {
  }

  ghost function Creations(events: seq<Event>): (n: nat) {
    if events == [] then 0
    else Creations(events[..|events| - 1]) + (if events[|events| - 1].Create? then 1 else 0)
  }

  ghost function Progressions(states: seq<System>, events: seq<Event>): (n: nat)
    requires |states| == |events| + 1 && forall i :: 0 <= i < |events| ==> Enabled(states[i], events[i])
  {
    if events == [] then 0
    else
      var last := |events| - 1;
      Progressions(states[..last + 1], events[..last]) + (if IsProgress(states[last], events[last]) then 1 else 0)
  }

  /** A whole run does at most 21 claims, runs, settlements, requeues and supersessions per artifact
      ever created: whatever the interleaving, the runner cannot retry forever. */
  lemma {:induction false} WorkIsBounded(states: seq<System>, events: seq<Event>)
    requires IsRun(states, events)
    ensures forall i :: 0 <= i < |events| ==> Enabled(states[i], events[i])
    ensures Progressions(states, events) <= NEW_WEIGHT * Creations(events)
    ensures Progressions(states, events) + Measure(states[|events|]) <= NEW_WEIGHT * Creations(events)
    decreases |events|
  {
    hide Inv, Apply, Enabled, IsProgress, Measure;
    forall i | 0 <= i < |events| ensures Enabled(states[i], events[i]) { assert Leads(states, events, i); }
    if events == [] {
      EmptyMeasure(states[0]);
    } else {
      var last := |events| - 1;
      PrefixIsRun(states, events, last);
      WorkIsBounded(states[..last + 1], events[..last]);
      RunKeepsInv(states, events, last);
      assert Leads(states, events, last);
      MeasureDecreases(states[last], events[last]);
      assert Progressions(states, events) ==
        Progressions(states[..last + 1], events[..last]) + (if IsProgress(states[last], events[last]) then 1 else 0);
    }
    RunKeepsInv(states, events, |events|);
    MeasureIsNatural(states[|events|]);
  }

  lemma EmptyMeasure(s: System)
    requires Initial(s)
    ensures Measure(s) == 0
  {
  }

  lemma MeasureIsNatural(s: System)
    requires Inv(s)
    ensures Measure(s) >= 0
  {
    WeightsAreNatural(s, |s.artifacts|);
  }

  lemma PrefixIsRun(states: seq<System>, events: seq<Event>, n: nat)
    requires IsRun(states, events) && n <= |events|
    ensures IsRun(states[..n + 1], events[..n])
  {
    hide Apply, Enabled;
    var firstStates, firstEvents := states[..n + 1], events[..n];
    forall i | 0 <= i < n ensures Leads(firstStates, firstEvents, i) {
      assert Leads(states, events, i);
    }
  }

  // ---------------------------------------------------------------- no starvation

  /** Everything in the store was stamped strictly before now. */
  ghost predicate StampedBefore(artifacts: seq<Artifact>, now: int) {
    forall i :: 0 <= i < |artifacts| ==> artifacts[i].createdAt < now && artifacts[i].updatedAt < now
  }

  /** A step that queues artifacts stamps them later than everything in the store. */
  ghost predicate ClockAdvances(s: System, e: Event) {
    match e
    case Create(_, at) => StampedBefore(s.artifacts, at)
    case RequeueArrives(_, _, at) => StampedBefore(s.artifacts, at)
    case _ => true
  }

  predicate IsWaiting(s: System, id: nat) {
    id < |s.artifacts| && s.artifacts[id].status == Pending
  }

  /** The artifacts a claim of id's block would take before id. */
  ghost function Queue(s: System, id: nat): (ahead: set<nat>)
    requires id < |s.artifacts|
  {
    WaitingAhead(s.artifacts, s.artifacts[id].blockName, s.artifacts[id].blockVersion, id)
  }

  /** The step claims something from id's block. */
  predicate ClaimsFromBlockOf(s: System, e: Event, id: nat) {
    && e.ClaimArrives? && e.r in s.runners && id < |s.artifacts|
    && OfBlock(s.artifacts[id], s.runners[e.r].name, s.runners[e.r].version) && e.ids != []
  }

  lemma WaitingRecordKept(s: System, e: Event, id: nat)
    requires Inv(s) && Enabled(s, e) && IsWaiting(s, id) && IsWaiting(Apply(s, e), id)
    ensures Apply(s, e).artifacts[id] == s.artifacts[id]
  {
    hide Inv, CountRuns, SortedByAge, Unheld, NewWorks, WaitingAhead;
    match e
    case PhaseArrives(w, _, _) => WorkIsExclusive(s, w);
    case ReadyArrives(w, _, _) => WorkIsExclusive(s, w);
    case RejectedArrives(w, _, _) => WorkIsExclusive(s, w);
    case FailedArrives(w, _, _) => WorkIsExclusive(s, w);
    case _ =>
  }

  /** What is newly waiting was created or requeued, and so is behind id. */
  lemma NewlyWaitingIsBehind(s: System, e: Event, id: nat, i: nat)
    requires Inv(s) && Enabled(s, e) && ClockAdvances(s, e)
    requires IsWaiting(s, id) && IsWaiting(Apply(s, e), id)
    requires IsWaiting(Apply(s, e), i) && !IsWaiting(s, i)
    ensures !Ahead(Apply(s, e).artifacts, i, id)
  {
    hide Inv, CountRuns, SortedByAge, Unheld, NewWorks, WaitingAhead;
    WaitingRecordKept(s, e, id);
    match e
    case PhaseArrives(w, _, _) => WorkIsExclusive(s, w);
    case ReadyArrives(w, _, _) => WorkIsExclusive(s, w);
    case RejectedArrives(w, _, _) => WorkIsExclusive(s, w);
    case FailedArrives(w, _, _) => WorkIsExclusive(s, w);
    case _ =>
  }

  /** Under a strictly increasing clock, the queue ahead of a waiting artifact never grows. */
  lemma QueueNeverGrows(s: System, e: Event, id: nat)
    requires Inv(s) && Enabled(s, e) && ClockAdvances(s, e)
    requires IsWaiting(s, id) && IsWaiting(Apply(s, e), id)
    ensures Queue(Apply(s, e), id) <= Queue(s, id)
  {
    hide Inv, Apply, Enabled, ClockAdvances;
    var s' := Apply(s, e);
    WaitingRecordKept(s, e, id);
    forall i | i in Queue(s', id) ensures i in Queue(s, id) {
      if IsWaiting(s, i) {
        WaitingRecordKept(s, e, i);
      } else {
        NewlyWaitingIsBehind(s, e, id, i);
      }
    }
  }

  /** A claim from id's block that does not take id takes only artifacts ahead of it. */
  lemma ClaimedAreAhead(artifacts: seq<Artifact>, name: string, version: string, limit: int, id: nat, i: nat)
    requires Claims(artifacts, name, version, limit, i) && Waiting(artifacts, name, version, id)
    requires !Claims(artifacts, name, version, limit, id)
    ensures i in WaitingAhead(artifacts, name, version, id)
  {
    if !Ahead(artifacts, i, id) {
      assert i != id;
      assert Ahead(artifacts, id, i);
      assert WaitingAhead(artifacts, name, version, id) <= WaitingAhead(artifacts, name, version, i);
      SubsetCount(WaitingAhead(artifacts, name, version, id), WaitingAhead(artifacts, name, version, i));
      assert false;
    }
  }

  /** Every claim from id's block that leaves id waiting shortens the queue ahead of it. */
  lemma QueueShrinks(s: System, e: Event, id: nat)
    requires Inv(s) && Enabled(s, e) && IsWaiting(s, id) && IsWaiting(Apply(s, e), id)
    requires ClaimsFromBlockOf(s, e, id)
    ensures |Queue(Apply(s, e), id)| < |Queue(s, id)|
  {
    hide Inv, WaitingAhead, SortedByAge;
    var s' := Apply(s, e);
    var runner := s.runners[e.r];
    var i := e.ids[0];
    assert i in e.ids;
    assert Claims(s.artifacts, runner.name, runner.version, runner.tick.limit, i);
    assert !Claims(s.artifacts, runner.name, runner.version, runner.tick.limit, id);
    ClaimedAreAhead(s.artifacts, runner.name, runner.version, runner.tick.limit, id, i);
    QueueNeverGrows(s, e, id);
    assert s'.artifacts[i].status == Running;
    QueueMembersWait(s', id, i);
    SubsetCount(Queue(s', id) + {i}, Queue(s, id));
  }

  lemma QueueMembersWait(s: System, id: nat, i: nat)
    requires id < |s.artifacts| && i < |s.artifacts| && s.artifacts[i].status != Pending
    ensures i !in Queue(s, id)
  {
  }

  ghost function ClaimsFromBlock(states: seq<System>, events: seq<Event>, id: nat, i: nat, j: nat): (n: nat)
    requires |states| == |events| + 1 && i <= j <= |events|
    decreases j
  {
    if i == j then 0
    else ClaimsFromBlock(states, events, id, i, j - 1) + (if ClaimsFromBlockOf(states[j - 1], events[j - 1], id) then 1 else 0)
  }

  /** No waiting artifact starves: however long it waits, its block sees no more claims than there
      were artifacts ahead of it at the start, so the next claim after those takes it. */
  lemma {:induction false} NoStarvation(states: seq<System>, events: seq<Event>, id: nat, i: nat, j: nat)
    requires IsRun(states, events) && i <= j <= |events|
    requires forall k :: i <= k < j ==> ClockAdvances(states[k], events[k])
    requires forall k :: i <= k <= j ==> IsWaiting(states[k], id)
    ensures IsWaiting(states[i], id) && IsWaiting(states[j], id)
    ensures ClaimsFromBlock(states, events, id, i, j) + |Queue(states[j], id)| <= |Queue(states[i], id)|
    decreases j
  {
    hide Inv, Apply, Enabled, Queue, ClockAdvances;
    if i == j {
    } else {
      NoStarvation(states, events, id, i, j - 1);
      RunKeepsInv(states, events, j - 1);
      assert Leads(states, events, j - 1);
      QueueNeverGrows(states[j - 1], events[j - 1], id);
      SubsetCount(Queue(states[j], id), Queue(states[j - 1], id));
      if ClaimsFromBlockOf(states[j - 1], events[j - 1], id) {
        QueueShrinks(states[j - 1], events[j - 1], id);
      }
    }
  }
}
