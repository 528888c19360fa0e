/** What the runner guarantees over whole runs of the system. */
module RunnerLaws {
  import opened Common
  import opened ArtifactStore
  import opened Runner
  import opened RunnerSafety

  /** A run from the empty store: events[i] leads from states[i] to states[i + 1]. */
  ghost predicate IsRun(states: seq<System>, events: seq<Event>) {
    && |states| == |events| + 1 && Initial(states[0])
    && forall i :: 0 <= i < |events| ==> Leads(states, events, i)
  }

  ghost predicate Leads(states: seq<System>, events: seq<Event>, i: nat)
    requires |states| == |events| + 1 && i < |events|
  {
    Enabled(states[i], events[i]) && states[i + 1] == Apply(states[i], events[i])
  }

  lemma {:induction false} RunKeepsInv(states: seq<System>, events: seq<Event>, i: nat)
    requires IsRun(states, events) && i < |states|
    ensures Inv(states[i])
  {
    hide Inv, Apply, Enabled;
    if i == 0 {
      InitialInv(states[0]);
    } else {
      RunKeepsInv(states, events, i - 1);
      assert Leads(states, events, i - 1);
      StepKeepsInv(states[i - 1], events[i - 1]);
    }
  }

  // ---------------------------------------------------------------- safety in every state

  /** Whatever the interleaving: one ready artifact per key, one fulfilment per artifact, never
      more than the allowed runs, and no runner beyond its parallelism. */
  lemma EveryStateIsSafe(states: seq<System>, events: seq<Event>, i: nat)
    requires IsRun(states, events) && i < |states|
    ensures
      var s := states[i];
      && OneReady(s.artifacts)
      && (forall w, w', id :: WorksOn(s, w, id) && WorksOn(s, w', id) ==> w == w')
      && (forall w, id: nat :: WorksOn(s, w, id) ==> id < |s.artifacts| && s.artifacts[id].status == Running)
      && (forall id :: 0 <= id < |s.artifacts| ==> CountRuns(s.runs, id) <= MAX_OPERATIONAL_RUNS)
      && (forall r :: r in s.runners ==> |s.runners[r].active| <= s.runners[r].parallelism)
  {
    hide CountRuns;
    RunKeepsInv(states, events, i);
    var s := states[i];
    forall r | r in s.runners ensures |s.runners[r].active| <= s.runners[r].parallelism {
      assert RunnerOk(s.artifacts, s.runners[r]);
    }
  }

  // ---------------------------------------------------------------- final statuses are final

  /** From a to a', a ready record may only become superseded, and a rejected or superseded
      record does not change at all. */
  predicate FinalKept(a: Artifact, a': Artifact) {
    && (a.status == Rejected || a.status == Superseded ==> a' == a)
    && (a.status == Ready ==> a' == a || IsSupersession(a, a'))
  }

  predicate IsSupersession(a: Artifact, a': Artifact) {
    && a'.status == Superseded
    && a'.(status := a.status, supersededBy := a.supersededBy, supersededAt := a.supersededAt, updatedAt := a.updatedAt) == a
  }

  lemma StepKeepsFinal(s: System, e: Event, id: nat)
    requires Inv(s) && Enabled(s, e) && id < |s.artifacts|
    ensures id < |Apply(s, e).artifacts| && FinalKept(s.artifacts[id], Apply(s, e).artifacts[id])
  {
    hide Inv, CountRuns, Claims, SortedByAge, Unheld, NewWorks;
    match e
    case ClaimArrives(r, ids, at) =>
      var runner := s.runners[r];
      assert Claims(s.artifacts, runner.name, runner.version, runner.tick.limit, id) ==> s.artifacts[id].status == Pending by {
        ClaimedIsPending(s.artifacts, runner.name, runner.version, runner.tick.limit, id);
      }
    case PhaseArrives(w, _, _) => WorkIsExclusive(s, w);
    case ReadyArrives(w, _, _) => WorkIsExclusive(s, w);
    case RejectedArrives(w, _, _) => WorkIsExclusive(s, w);
    case FailedArrives(w, _, _) => WorkIsExclusive(s, w);
    case _ =>
  }

  lemma ClaimedIsPending(a: seq<Artifact>, name: string, version: string, limit: int, id: nat)
    requires id < |a|
    ensures Claims(a, name, version, limit, id) ==> a[id].status == Pending
  {
  }

  /** Over any stretch of any run: rejected and superseded never change, ready only becomes superseded. */
  lemma {:induction false} FinalStatusesAreFinal(states: seq<System>, events: seq<Event>, i: nat, j: nat, id: nat)
    requires IsRun(states, events) && i <= j < |states| && id < |states[i].artifacts|
    ensures id < |states[j].artifacts| && FinalKept(states[i].artifacts[id], states[j].artifacts[id])
    decreases j
  {
    hide Inv, Apply, Enabled;
    if i == j {
    } else {
      FinalStatusesAreFinal(states, events, i, j - 1, id);
      RunKeepsInv(states, events, j - 1);
      assert Leads(states, events, j - 1);
      StepKeepsFinal(states[j - 1], events[j - 1], id);
    }
  }

  // ---------------------------------------------------------------- a claimed artifact is never skipped

  /** No two live runners serve the same block and version. */
  ghost predicate LoneRunners(s: System) {
    forall r, q :: r in s.runners && q in s.runners && SameBlock(s.runners[r], s.runners[q]) ==> r == q
  }

  predicate SameBlock(a: Runner, b: Runner) {
    a.name == b.name && a.version == b.version
  }

  ghost predicate ActiveNotQueued(s: System) {
    forall r :: r in s.runners ==> RunnerNotQueued(s.artifacts, s.runners[r])
  }

  /** Nothing active is waiting or claimed again, and a requeue under way spares what is active. */
  ghost predicate RunnerNotQueued(artifacts: seq<Artifact>, runner: Runner) {
    && (forall id :: id in runner.active && id < |artifacts| ==> artifacts[id].status != Pending)
    && (runner.tick.RequeueSent? ==> runner.active <= runner.tick.excluded)
    && (runner.tick.Claimed? ==> forall id :: id in runner.tick.ids ==> id !in runner.active)
  }

  /** A requeue takes nothing that some runner, its own or another, still counts as active. */
  ghost predicate RequeueSpares(s: System, e: Event) {
    e.RequeueArrives? ==> forall q, id :: IsActive(s, q, id) ==> !Retakes(s, e, id)
  }

  predicate IsActive(s: System, q: nat, id: nat) {
    q in s.runners && id in s.runners[q].active
  }

  predicate Retakes(s: System, e: Event, id: nat) {
    && e.RequeueArrives? && e.r in s.runners && s.runners[e.r].tick.RequeueSent? && id < |s.artifacts|
    && var runner := s.runners[e.r];
       Requeues(s.artifacts[id], id, s.runs, runner.name, runner.version,
         runner.tick.runCount, e.before, runner.tick.excluded)
  }

  /** A step keeps active artifacts out of the queue exactly when it is no requeue of one. */
  lemma StepKeepsActiveNotQueued(s: System, e: Event)
    requires Inv(s) && ActiveNotQueued(s) && Enabled(s, e)
    ensures ActiveNotQueued(Apply(s, e)) <==> RequeueSpares(s, e)
  {
    hide Inv, ActiveNotQueued, Apply, Enabled;
    if RequeueSpares(s, e) {
      SparingKeepsActiveNotQueued(s, e);
    } else {
      var q, id :| IsActive(s, q, id) && Retakes(s, e, id);
      RetakenIsQueued(s, e, q, id);
      if ActiveNotQueued(Apply(s, e)) { NotQueued(Apply(s, e), q); }
    }
  }

  lemma RetakenIsQueued(s: System, e: Event, q: nat, id: nat)
    requires Enabled(s, e) && IsActive(s, q, id) && Retakes(s, e, id)
    ensures q in Apply(s, e).runners && !RunnerNotQueued(Apply(s, e).artifacts, Apply(s, e).runners[q])
  {
    hide CountRuns;
    assert Apply(s, e).artifacts[id].status == Pending;
    assert id in Apply(s, e).runners[q].active;
  }

  lemma SparingKeepsActiveNotQueued(s: System, e: Event)
    requires Inv(s) && ActiveNotQueued(s) && Enabled(s, e) && RequeueSpares(s, e)
    ensures ActiveNotQueued(Apply(s, e))
  {
    hide Inv, ActiveNotQueued, RequeueSpares;
    var s' := Apply(s, e);
    forall r | r in s'.runners ensures RunnerNotQueued(s'.artifacts, s'.runners[r]) {
      assert r in s.runners ==> RunnerOk(s.artifacts, s.runners[r]) && RunnerNotQueued(s.artifacts, s.runners[r]) by {
        if r in s.runners { RunnerIsOk(s, r); NotQueued(s, r); }
      }
      if e.Launch? && r == e.r {
      } else if e.ClaimArrives? {
        NotQueuedAfterClaim(s, e, r);
      } else if e.Adopt? && r == e.r {
        forall id | id in s'.runners[r].active && id !in s.runners[r].active
          ensures id < |s.artifacts| && s.artifacts[id].status == Running
        {
          assert Distinct(s.runners[r].tick.ids) by { ClaimIsDistinct(s, r); }
          UnheldIds(s.runners[r].tick.ids, s.runners[r].active);
          assert InClaim(s, r, id);
          HeldIsRunning(s, id);
        }
      } else {
        NotQueuedAfterOther(s, e, r);
      }
    }
    assert ActiveNotQueued(s') by { AllNotQueued(s'); }
  }

  lemma NotQueued(s: System, r: nat)
    requires ActiveNotQueued(s) && r in s.runners
    ensures RunnerNotQueued(s.artifacts, s.runners[r])
  {
  }

  lemma AllNotQueued(s: System)
    requires forall r :: r in s.runners ==> RunnerNotQueued(s.artifacts, s.runners[r])
    ensures ActiveNotQueued(s)
  {
  }

  lemma NotQueuedAfterClaim(s: System, e: Event, r: nat)
    requires Enabled(s, e) && e.ClaimArrives? && r in s.runners && RunnerNotQueued(s.artifacts, s.runners[r])
    ensures RunnerNotQueued(Apply(s, e).artifacts, Apply(s, e).runners[r])
  {
    hide SortedByAge, WaitingAhead;
    var runner := s.runners[e.r];
    forall id | id in e.ids ensures id < |s.artifacts| && s.artifacts[id].status == Pending {
      assert Claims(s.artifacts, runner.name, runner.version, runner.tick.limit, id);
    }
  }

  lemma RunnerAfterOther(s: System, e: Event, r: nat)
    requires Enabled(s, e) && r in s.runners && r in Apply(s, e).runners
    requires !e.ClaimArrives? && !(e.Adopt? && e.r == r) && !(e.Launch? && e.r == r)
    ensures
      var was, now := s.runners[r], Apply(s, e).runners[r];
      && now.active <= was.active
      && (now.tick.RequeueSent? ==> now.tick == was.tick || now.tick.excluded == was.active)
      && (now.tick.Claimed? ==> now.tick == was.tick)
  {
    hide CountRuns, Unheld, NewWorks, Dump, MarkReady, Requeue, Claim, Retire, SortedByAge, Claims;
  }

  lemma NotPendingAfterOther(s: System, e: Event, r: nat, id: nat)
    requires Enabled(s, e) && RequeueSpares(s, e) && r in s.runners && id < |s.artifacts|
    requires id in s.runners[r].active && RunnerNotQueued(s.artifacts, s.runners[r])
    requires !e.ClaimArrives?
    ensures id < |Apply(s, e).artifacts| && Apply(s, e).artifacts[id].status != Pending
  {
    hide CountRuns, Unheld, NewWorks, SortedByAge, Claims, Retire;
    assert IsActive(s, r, id);
  }

  /** Every other step leaves r's active artifacts out of the queue. */
  lemma NotQueuedAfterOther(s: System, e: Event, r: nat)
    requires Enabled(s, e) && RequeueSpares(s, e) && r in s.runners && r in Apply(s, e).runners
    requires RunnerNotQueued(s.artifacts, s.runners[r]) && RunnerOk(s.artifacts, s.runners[r])
    requires !e.ClaimArrives? && !(e.Adopt? && e.r == r) && !(e.Launch? && e.r == r)
    ensures RunnerNotQueued(Apply(s, e).artifacts, Apply(s, e).runners[r])
  {
    hide Apply, Enabled, RequeueSpares, OfBlock;
    RunnerAfterOther(s, e, r);
    forall id | id in s.runners[r].active
      ensures id < |Apply(s, e).artifacts| && Apply(s, e).artifacts[id].status != Pending
    {
      NotPendingAfterOther(s, e, r, id);
    }
  }

  /** Two runners of different blocks never reach for one artifact, and a runner spares its own. */
  lemma LoneRunnersSpare(s: System, e: Event)
    requires Inv(s) && LoneRunners(s) && ActiveNotQueued(s) && Enabled(s, e)
    ensures RequeueSpares(s, e)
  {
    hide Inv, ActiveNotQueued, Apply, CountRuns;
    if e.RequeueArrives? {
      forall q, id | IsActive(s, q, id) ensures !Retakes(s, e, id) {
        RunnerIsOk(s, q);
        NotQueued(s, e.r);
        assert Retakes(s, e, id) ==> SameBlock(s.runners[q], s.runners[e.r]);
      }
    }
  }

  /** Up to a point of a run, active artifacts stay out of the queue exactly when every requeue so
      far spared them. */
  lemma {:induction false} ActiveStayOutExactly(states: seq<System>, events: seq<Event>, n: nat)
    requires IsRun(states, events) && n < |states|
    ensures (forall i :: 0 <= i <= n ==> ActiveNotQueued(states[i])) <==>
      (forall i :: 0 <= i < n ==> RequeueSpares(states[i], events[i]))
  {
    hide Inv, Apply, Enabled, RequeueSpares, ActiveNotQueued;
    if n == 0 {
      assert ActiveNotQueued(states[0]) by { AllNotQueued(states[0]); }
    } else {
      ActiveStayOutExactly(states, events, n - 1);
      RunKeepsInv(states, events, n - 1);
      assert Leads(states, events, n - 1);
      if ActiveNotQueued(states[n - 1]) {
        StepKeepsActiveNotQueued(states[n - 1], events[n - 1]);
      }
    }
  }

  lemma {:induction false} LoneRunsKeepActiveOut(states: seq<System>, events: seq<Event>, i: nat)
    requires IsRun(states, events) && i < |states|
    requires forall k :: 0 <= k < |states| ==> LoneRunners(states[k])
    ensures ActiveNotQueued(states[i])
  {
    hide Inv, Apply, Enabled, LoneRunners, ActiveNotQueued, RequeueSpares;
    if i == 0 {
      assert ActiveNotQueued(states[0]) by { AllNotQueued(states[0]); }
    } else {
      LoneRunsKeepActiveOut(states, events, i - 1);
      RunKeepsInv(states, events, i - 1);
      assert Leads(states, events, i - 1);
      LoneRunnersSpare(states[i - 1], events[i - 1]);
      StepKeepsActiveNotQueued(states[i - 1], events[i - 1]);
    }
  }

  lemma {:induction false} UnheldKeepsAll(ids: seq<nat>, active: set<nat>)
    requires forall id :: id in ids ==> id !in active
    ensures Unheld(ids, active) == ids
  {
    if ids == [] {
    } else {
      assert ids == [ids[0]] + ids[1..];
      UnheldKeepsAll(ids[1..], active);
    }
  }

  /** With one live runner per block, no active artifact is ever waiting. */
  lemma ActiveIsNeverWaiting(states: seq<System>, events: seq<Event>, i: nat, r: nat, id: nat)
    requires IsRun(states, events) && i < |states|
    requires forall k :: 0 <= k < |states| ==> LoneRunners(states[k])
    requires r in states[i].runners && id in states[i].runners[r].active
    ensures id < |states[i].artifacts| && states[i].artifacts[id].status != Pending
  {
    hide Inv, IsRun, LoneRunners;
    LoneRunsKeepActiveOut(states, events, i);
    RunKeepsInv(states, events, i);
    RunnerIsOk(states[i], r);
    assert RunnerNotQueued(states[i].artifacts, states[i].runners[r]);
  }

  predicate StartedOn(s: System, w: nat, id: nat) {
    WorksOn(s, w, id) && s.works[w].stage == Started
  }

  ghost predicate BeingFulfilled(s: System, id: nat) {
    exists w: nat :: StartedOn(s, w, id)
  }

  /** With one live runner per block, an adoption starts a fulfilment for every claimed artifact:
      the check against the active set never skips one. */
  lemma ClaimedIsNeverSkipped(states: seq<System>, events: seq<Event>, i: nat, id: nat)
    requires IsRun(states, events) && i < |events| && events[i].Adopt?
    requires forall k :: 0 <= k < |states| ==> LoneRunners(states[k])
    requires InClaim(states[i], events[i].r, id)
    ensures BeingFulfilled(states[i + 1], id)
  {
    assert |states| == |events| + 1;
    hide Inv, IsRun, LoneRunners, Apply, Enabled;
    LoneRunsKeepActiveOut(states, events, i);
    RunKeepsInv(states, events, i);
    assert Leads(states, events, i) by { IsRunLeads(states, events, i); }
    AdoptionStartsAll(states[i], events[i], id);
  }

  lemma IsRunLeads(states: seq<System>, events: seq<Event>, i: nat)
    requires IsRun(states, events) && i < |events|
    ensures Leads(states, events, i)
  {
  }

  lemma AdoptedWorks(s: System, e: Event)
    requires Enabled(s, e) && e.Adopt?
    ensures Apply(s, e).works == s.works + NewWorks(s, e.r, Unheld(s.runners[e.r].tick.ids, s.runners[e.r].active))
  {
    hide NewWorks, Unheld;
  }

  lemma AdoptionStartsAll(s: System, e: Event, id: nat)
    requires Inv(s) && ActiveNotQueued(s) && Enabled(s, e) && e.Adopt? && InClaim(s, e.r, id)
    ensures BeingFulfilled(Apply(s, e), id)
  {
    hide Inv, WorkKey, Apply, Unheld;
    var runner := s.runners[e.r];
    var ids := runner.tick.ids;
    assert RunnerNotQueued(s.artifacts, runner);
    UnheldKeepsAll(ids, runner.active);
    AdoptedWorks(s, e);
    forall k | 0 <= k < |ids| ensures ids[k] < |s.artifacts| {
      assert InClaim(s, e.r, ids[k]);
      HeldIsRunning(s, ids[k]);
    }
    var k :| 0 <= k < |ids| && ids[k] == id;
    var s' := Apply(s, e);
    assert s'.works[|s.works| + k] == NewWorks(s, e.r, ids)[k];
    assert StartedOn(s', |s.works| + k, id);
  }

  // ---------------------------------------------------------------- ids are for ever

  /** What a record is of, and since when. */
  predicate SameRecord(a: Artifact, a': Artifact) {
    KeyOf(a) == KeyOf(a') && a.createdAt == a'.createdAt
  }

  lemma StepKeepsRecords(s: System, e: Event, id: nat)
    requires Enabled(s, e) && id < |s.artifacts|
    ensures id < |Apply(s, e).artifacts| && SameRecord(s.artifacts[id], Apply(s, e).artifacts[id])
  {
    hide CountRuns, Claims, SortedByAge, Unheld, NewWorks, Retire;
  }

  /** An id handed out once names that same record in every later state, so looking it up later finds
      the artifact that was created under it. */
  lemma {:induction false} IdsKeepTheirRecords(states: seq<System>, events: seq<Event>, i: nat, j: nat, id: nat)
    requires IsRun(states, events) && i <= j < |states| && id < |states[i].artifacts|
    ensures id < |states[j].artifacts| && SameRecord(states[i].artifacts[id], states[j].artifacts[id])
    decreases j
  {
    hide Apply, Enabled;
    if i == j {
    } else {
      IdsKeepTheirRecords(states, events, i, j - 1, id);
      assert Leads(states, events, j - 1);
      StepKeepsRecords(states[j - 1], events[j - 1], id);
    }
  }

  // ---------------------------------------------------------------- nobody's artifact

  /** Running, but claimed by nobody and worked on by nobody. */
  ghost predicate Stranded(s: System, id: nat) {
    && id < |s.artifacts| && s.artifacts[id].status == Running
    && (forall r :: !InClaim(s, r, id))
    && (forall w: nat :: !WorksOn(s, w, id))
  }

  /** Nothing brings such an artifact back: running artifacts are neither requeued nor claimed. */
  lemma {:induction false} StrandedForEver(states: seq<System>, events: seq<Event>, i: nat, j: nat, id: nat)
    requires IsRun(states, events) && i <= j < |states| && Stranded(states[i], id)
    ensures Stranded(states[j], id)
    decreases j
  {
    hide Inv, Apply, Enabled, Stranded;
    if i == j {
    } else {
      StrandedForEver(states, events, i, j - 1, id);
      RunKeepsInv(states, events, j - 1);
      assert Leads(states, events, j - 1);
      StepKeepsStranded(states[j - 1], events[j - 1], id);
    }
  }

  lemma StepKeepsStranded(s: System, e: Event, id: nat)
    requires Inv(s) && Enabled(s, e) && Stranded(s, id)
    ensures Stranded(Apply(s, e), id)
  {
    StepKeepsRunning(s, e, id);
    hide Inv, Enabled, Apply, Stranded, InClaim, WorksOn;
    forall r ensures !InClaim(Apply(s, e), r, id) {
      StaysUnclaimed(s, e, id, r);
    }
    forall w: nat ensures !WorksOn(Apply(s, e), w, id) {
      StaysIdle(s, e, id, w);
    }
    IsStranded(Apply(s, e), id);
  }

  lemma IsStranded(s: System, id: nat)
    requires id < |s.artifacts| && s.artifacts[id].status == Running
    requires (forall r :: !InClaim(s, r, id)) && (forall w: nat :: !WorksOn(s, w, id))
    ensures Stranded(s, id)
  {
    hide InClaim, WorksOn;
  }

  lemma StaysUnclaimed(s: System, e: Event, id: nat, r: nat)
    requires Enabled(s, e) && Stranded(s, id)
    ensures !InClaim(Apply(s, e), r, id)
  {
    hide CountRuns, SortedByAge, WaitingAhead, NewWorks, Unheld;
    assert !InClaim(s, r, id);
  }

  lemma StaysIdle(s: System, e: Event, id: nat, w: nat)
    requires Inv(s) && Enabled(s, e) && Stranded(s, id)
    ensures !WorksOn(Apply(s, e), w, id)
  {
    hide Inv, CountRuns, SortedByAge, Claims, NewWorks, Unheld;
    assert !WorksOn(s, w, id);
    if e.Adopt? && WorksOn(Apply(s, e), w, id) {
      NewWorksOn(s, e, w, id);
    }
  }

  lemma StepKeepsRunning(s: System, e: Event, id: nat)
    requires Inv(s) && Enabled(s, e) && Stranded(s, id)
    ensures id < |Apply(s, e).artifacts| && Apply(s, e).artifacts[id].status == Running
  {
    hide Inv, CountRuns, SortedByAge, WaitingAhead, NewWorks, Unheld;
    match e
    case ReadyArrives(w, _, _) => assert !WorksOn(s, w, id);
    case RejectedArrives(w, _, _) => assert !WorksOn(s, w, id);
    case FailedArrives(w, _, _) => assert !WorksOn(s, w, id);
    case _ =>
  }

  /** An adoption starts works only on what its runner claimed. */
  lemma NewWorksOn(s: System, e: Event, w: nat, id: nat)
    requires Inv(s) && Enabled(s, e) && e.Adopt? && WorksOn(Apply(s, e), w, id)
    ensures WorksOn(s, w, id) || InClaim(s, e.r, id)
  {
    AdoptedWorks(s, e);
    UnheldAreClaimed(s, e);
    hide Inv, Enabled, Apply, Unheld, NewWorks, WorkKey;
    var unheld := Unheld(s.runners[e.r].tick.ids, s.runners[e.r].active);
    if w >= |s.works| {
      assert NewWorks(s, e.r, unheld)[w - |s.works|].artifactId == unheld[w - |s.works|];
    }
  }

  lemma UnheldAreClaimed(s: System, e: Event)
    requires Inv(s) && Enabled(s, e) && e.Adopt?
    ensures
      var unheld := Unheld(s.runners[e.r].tick.ids, s.runners[e.r].active);
      forall k :: 0 <= k < |unheld| ==> unheld[k] < |s.artifacts| && InClaim(s, e.r, unheld[k])
  {
    hide Inv, Unheld;
    var runner := s.runners[e.r];
    assert Distinct(runner.tick.ids) by { ClaimIsDistinct(s, e.r); }
    UnheldIds(runner.tick.ids, runner.active);
    var unheld := Unheld(runner.tick.ids, runner.active);
    forall k | 0 <= k < |unheld| ensures unheld[k] < |s.artifacts| && InClaim(s, e.r, unheld[k]) {
      assert unheld[k] in unheld;
      HeldIsRunning(s, unheld[k]);
    }
  }
}
