/** Two live runners of one block, from the empty store: the second requeues an artifact that the
    first has failed but still counts as active, and the first then claims it and skips it. */
module TwoRunners {
  import opened Common
  import opened ArtifactStore
  import opened Runner
  import opened RunnerSafety
  import opened RunnerLaws

  ghost predicate Reached(s: System) {
    exists states, events :: EndsIn(states, events, s)
  }

  ghost predicate EndsIn(states: seq<System>, events: seq<Event>, s: System) {
    IsRun(states, events) && states[|events|] == s
  }

  lemma Start()
    ensures Reached(System([], [], map[], []))
  {
    var s := System([], [], map[], []);
    assert EndsIn([s], [], s);
  }

  lemma Go(s: System, e: Event)
    requires Reached(s) && Enabled(s, e)
    ensures Reached(Apply(s, e))
  {
    hide Apply, Enabled;
    var states, events :| EndsIn(states, events, s);
    var states', events' := states + [Apply(s, e)], events + [e];
    forall i | 0 <= i < |events'| ensures Leads(states', events', i) {
      if i < |events| {
        assert Leads(states, events, i);
      }
    }
    assert EndsIn(states', events', Apply(s, e));
  }

  const KEY: Key := Key("logo", "v1", "aws")

  function Record(status: Status, at: int, error: Option<Payload>): Artifact {
    NewArtifact(KEY, 0).(status := status, updatedAt := at, error := error)
  }

  function First(active: set<nat>, tick: Tick): Runner {
    Runner("logo", "v1", 2, active, map[], tick, false)
  }

  function Second(tick: Tick): Runner {
    Runner("logo", "v1", 1, {}, map[], tick, false)
  }

  function At(a: Artifact, runs: seq<Run>, first: Runner, second: Runner, works: seq<Work>): System {
    System([a], runs, map[1 := first, 2 := second], works)
  }

  function OneRun(): seq<Run> {
    [Run(0, 2, RunRunning, OPEN)]
  }

  function OneWork(stage: Stage): seq<Work> {
    [Work(1, 0, KEY, stage)]
  }

  // ---------------------------------------------------------------- ticks

  /** A requeue with a cut-off before every failure moves nothing. */
  lemma QuietRequeue(s: System, r: nat, k: nat)
    requires Reached(s) && r in s.runners && s.runners[r].tick == Requeueing(k) && k < MAX_OPERATIONAL_RUNS
    requires forall i :: 0 <= i < |s.artifacts| && s.artifacts[i].status == Failed ==> s.artifacts[i].updatedAt > 0
    ensures Reached(SetTick(s, r, Requeueing(k + 1)))
  {
    var sent := SetTick(s, r, RequeueSent(k, s.runners[r].active));
    Go(s, RequeueLeaves(r));
    assert Apply(s, RequeueLeaves(r)) == sent;
    var e := RequeueArrives(r, 0, 0);
    Go(sent, e);
    var runner := sent.runners[r];
    assert Requeue(s.artifacts, s.runs, runner.name, runner.version, k, 0, runner.active, 0) == s.artifacts;
    assert Apply(sent, e) == SetTick(s, r, Requeueing(k + 1)) by {
      assert Apply(sent, e).runners == SetTick(s, r, Requeueing(k + 1)).runners;
    }
  }

  /** From idle to the end of the requeues, when nothing is failed. */
  lemma TickToBudget(s: System, r: nat)
    requires Reached(s) && r in s.runners && !s.runners[r].stopped && s.runners[r].tick == Idle
    requires forall i :: 0 <= i < |s.artifacts| ==> s.artifacts[i].status != Failed
    ensures Reached(SetTick(s, r, Requeueing(3)))
  {
    var s0, s1, s2 := SetTick(s, r, Requeueing(0)), SetTick(s, r, Requeueing(1)), SetTick(s, r, Requeueing(2));
    Go(s, TickStarts(r));
    QuietRequeue(s0, r, 0);
    assert SetTick(s0, r, Requeueing(1)).runners == s1.runners;
    QuietRequeue(s1, r, 1);
    assert SetTick(s1, r, Requeueing(2)).runners == s2.runners;
    QuietRequeue(s2, r, 2);
    assert SetTick(s2, r, Requeueing(3)).runners == SetTick(s, r, Requeueing(3)).runners;
  }

  lemma OnlyOneWaits(a: Artifact, limit: int)
    requires a.status == Pending && OfBlock(a, "logo", "v1") && limit >= 1
    ensures forall i: nat :: i in [0] <==> Claims([a], "logo", "v1", limit, i)
    ensures SortedByAge([a], [0])
  {
    assert WaitingAhead([a], "logo", "v1", 0) == {};
  }

  /** The first runner takes its budget. */
  lemma TakeBudget(a: Artifact, runs: seq<Run>, active: set<nat>, second: Runner, works: seq<Work>)
    requires Reached(At(a, runs, First(active, Idle), second, works))
    requires a.status == Pending && |active| <= 1
    ensures Reached(At(a, runs, First(active, Budgeted(2 - |active|)), second, works))
  {
    hide Reached;
    var s := At(a, runs, First(active, Idle), second, works);
    TickToBudget(s, 1);
    var ready := At(a, runs, First(active, Requeueing(3)), second, works);
    assert SetTick(s, 1, Requeueing(3)).runners == ready.runners;
    Go(ready, BudgetTaken(1));
    assert Apply(ready, BudgetTaken(1)).runners
      == At(a, runs, First(active, Budgeted(2 - |active|)), second, works).runners;
  }

  /** The first runner claims the one waiting artifact. */
  lemma ClaimOnly(a: Artifact, runs: seq<Run>, active: set<nat>, second: Runner, works: seq<Work>, at: int)
    requires Reached(At(a, runs, First(active, Idle), second, works))
    requires a.status == Pending && OfBlock(a, "logo", "v1") && |active| <= 1
    ensures Reached(At(ClaimOne(a, at), runs, First(active, Claimed([0])), second, works))
  {
    TakeBudget(a, runs, active, second, works);
    hide Reached;
    var limit := 2 - |active|;
    var budget := At(a, runs, First(active, Budgeted(limit)), second, works);
    var claimed := At(ClaimOne(a, at), runs, First(active, Claimed([0])), second, works);
    OnlyOneWaits(a, limit);
    assert Claim([a], "logo", "v1", limit, at) == [ClaimOne(a, at)] by { assert Claims([a], "logo", "v1", limit, 0); }
    hide Claims, SortedByAge, Claim, ClaimOne;
    var e := ClaimArrives(1, [0], at);
    Go(budget, e);
    assert Apply(budget, e).runners == claimed.runners;
  }

  // ---------------------------------------------------------------- the run

  lemma Created()
    ensures Reached(At(Record(Pending, 0, None), [], First({}, Idle), Second(Idle), []))
  {
    hide Reached;
    var s0 := System([], [], map[], []);
    var s1 := System([Record(Pending, 0, None)], [], map[], []);
    var s2 := s1.(runners := map[1 := First({}, Idle)]);
    Start();
    Go(s0, Create(KEY, 0));
    assert Apply(s0, Create(KEY, 0)) == s1;
    Go(s1, Launch(1, "logo", "v1", 2));
    assert Apply(s1, Launch(1, "logo", "v1", 2)) == s2;
    Go(s2, Launch(2, "logo", "v1", 1));
    assert Apply(s2, Launch(2, "logo", "v1", 1)).runners
      == At(Record(Pending, 0, None), [], First({}, Idle), Second(Idle), []).runners;
  }

  /** The first runner's fulfilment has failed and is about to leave. */
  lemma FailedAndActive()
    ensures Reached(At(Record(Failed, 3, Some("boom")), OneRun(), First({0}, Idle), Second(Idle), OneWork(Leaving)))
  {
    hide Reached;
    Created();
    ClaimOnly(Record(Pending, 0, None), [], {}, Second(Idle), [], 1);
    var running := Record(Running, 1, None);
    assert ClaimOne(Record(Pending, 0, None), 1) == running;
    var claimed := At(running, [], First({}, Claimed([0])), Second(Idle), []);
    var started := At(running, [], First({0}, Idle), Second(Idle), OneWork(Started));
    Go(claimed, Adopt(1));
    OnlyUnheld(claimed);
    assert {} + Elements<nat>([0]) == {0};
    assert Apply(claimed, Adopt(1)).runners[1] == First({0}, Idle);
    assert Apply(claimed, Adopt(1)).runners == started.runners;
    assert WorkKey(claimed, 1, 0) == KEY;
    assert Apply(claimed, Adopt(1)).works == OneWork(Started);
    Attempted(running);
  }

  lemma OnlyUnheld(s: System)
    requires 1 in s.runners && 0 < |s.artifacts|
    ensures Unheld([0], {}) == [0] && Unheld([0], {0}) == [] && Elements([0]) == {0} && Elements<nat>([]) == {}
    ensures NewWorks(s, 1, [0]) == [Work(1, 0, WorkKey(s, 1, 0), Started)] && NewWorks(s, 1, []) == []
  {}

  lemma Attempted(running: Artifact)
    requires running == Record(Running, 1, None)
    requires Reached(At(running, [], First({0}, Idle), Second(Idle), OneWork(Started)))
    ensures Reached(At(Record(Failed, 3, Some("boom")), OneRun(), First({0}, Idle), Second(Idle), OneWork(Leaving)))
  {
    hide Reached;
    var started := At(running, [], First({0}, Idle), Second(Idle), OneWork(Started));
    var attempting := At(running, OneRun(), First({0}, Idle), Second(Idle), OneWork(Attempting));
    var failing := At(running, OneRun(), First({0}, Idle), Second(Idle), OneWork(Failing));
    Go(started, RunStarts(0, 2));
    assert Apply(started, RunStarts(0, 2)) == attempting;
    Go(attempting, AttemptsEnd(0, Failing));
    assert Apply(attempting, AttemptsEnd(0, Failing)) == failing;
    Go(failing, FailedArrives(0, "boom", 3));
    assert Apply(failing, FailedArrives(0, "boom", 3))
      == At(Record(Failed, 3, Some("boom")), OneRun(), First({0}, Idle), Second(Idle), OneWork(Leaving));
  }

  /** The second runner requeues it before it has left. */
  lemma RequeuedWhileActive()
    ensures Reached(At(Record(Pending, 4, None), OneRun(), First({0}, Idle), Second(Requeueing(2)), OneWork(Leaving)))
  {
    hide Reached;
    FailedAndActive();
    var failed := Record(Failed, 3, Some("boom"));
    var idle := At(failed, OneRun(), First({0}, Idle), Second(Idle), OneWork(Leaving));
    var none := At(failed, OneRun(), First({0}, Idle), Second(Requeueing(0)), OneWork(Leaving));
    var one := At(failed, OneRun(), First({0}, Idle), Second(Requeueing(1)), OneWork(Leaving));
    var sent := At(failed, OneRun(), First({0}, Idle), Second(RequeueSent(1, {})), OneWork(Leaving));
    var after := At(Record(Pending, 4, None), OneRun(), First({0}, Idle), Second(Requeueing(2)), OneWork(Leaving));
    Go(idle, TickStarts(2));
    assert Apply(idle, TickStarts(2)).runners == none.runners;
    QuietRequeue(none, 2, 0);
    assert SetTick(none, 2, Requeueing(1)).runners == one.runners;
    Go(one, RequeueLeaves(2));
    assert Apply(one, RequeueLeaves(2)).runners == sent.runners;
    Go(sent, RequeueArrives(2, 3, 4));
    assert CountRuns(OneRun(), 0) == 1;
    assert Apply(sent, RequeueArrives(2, 3, 4)).runners == after.runners;
    assert Apply(sent, RequeueArrives(2, 3, 4)).artifacts == after.artifacts;
  }

  /** r is not the only live runner of its block. */
  predicate HasRival(s: System, r: nat, q: nat) {
    r != q && r in s.runners && q in s.runners && SameBlock(s.runners[r], s.runners[q])
  }

  predicate WaitsThoughActive(s: System, r: nat, id: nat) {
    IsActive(s, r, id) && id < |s.artifacts| && s.artifacts[id].status == Pending
  }

  /** With two live runners of one block, an artifact can wait while a runner counts it as active. */
  lemma ActiveMayWait()
    ensures exists s, r, q, id: nat :: Reached(s) && HasRival(s, r, q) && WaitsThoughActive(s, r, id)
  {
    RequeuedWhileActive();
    var s := At(Record(Pending, 4, None), OneRun(), First({0}, Idle), Second(Requeueing(2)), OneWork(Leaving));
    assert HasRival(s, 1, 2) && WaitsThoughActive(s, 1, 0);
  }

  /** Runner r adopts what it claimed, artifact id among it, and starts nothing on id. */
  ghost predicate Skips(s: System, r: nat, id: nat) {
    && Enabled(s, Adopt(r)) && InClaim(s, r, id)
    && !BeingFulfilled(Apply(s, Adopt(r)), id)
  }

  /** The last fulfilment of id to leave after the skip leaves the artifact to nobody. */
  ghost predicate Strands(s: System, r: nat, id: nat, w: nat) {
    && Skips(s, r, id) && Enabled(Apply(s, Adopt(r)), Leave(w))
    && Stranded(Apply(Apply(s, Adopt(r)), Leave(w)), id)
  }

  function Claiming(): System {
    At(Record(Running, 5, None), OneRun(), First({0}, Claimed([0])), Second(Requeueing(2)), OneWork(Leaving))
  }

  lemma ClaimedWhileActive()
    ensures Reached(Claiming())
  {
    RequeuedWhileActive();
    hide Reached;
    ClaimOnly(Record(Pending, 4, None), OneRun(), {0}, Second(Requeueing(2)), OneWork(Leaving), 5);
  }

  lemma AdoptSkips()
    ensures Enabled(Claiming(), Adopt(1))
    ensures Apply(Claiming(), Adopt(1))
      == At(Record(Running, 5, None), OneRun(), First({0}, Idle), Second(Requeueing(2)), OneWork(Leaving))
  {
    var s := Claiming();
    OnlyUnheld(s);
    assert {0} + Elements<nat>([]) == {0};
    assert Apply(s, Adopt(1)).runners[1] == First({0}, Idle);
    assert Apply(s, Adopt(1)).runners == map[1 := First({0}, Idle), 2 := Second(Requeueing(2))];
    assert Apply(s, Adopt(1)).works == OneWork(Leaving);
  }

  /** With two live runners of one block, a claimed artifact can be skipped as already active. */
  lemma ClaimedMayBeSkipped()
    ensures exists s, r, q, id: nat :: Reached(s) && HasRival(s, r, q) && Skips(s, r, id)
  {
    ClaimedWhileActive();
    AdoptSkips();
    var s := Claiming();
    assert HasRival(s, 1, 2) && Skips(s, 1, 0);
  }

  /** And when the fulfilment that made it active leaves, nobody is left to work on it. */
  lemma SkippedMayBeStranded()
    ensures exists s, r, q, id: nat, w: nat :: Reached(s) && HasRival(s, r, q) && Strands(s, r, id, w)
  {
    ClaimedWhileActive();
    AdoptSkips();
    var s := Claiming();
    hide Reached;
    var skipped := Apply(s, Adopt(1));
    LeaveStrands(skipped);
    assert HasRival(s, 1, 2) && Strands(s, 1, 0, 0);
  }

  lemma LeaveStrands(s: System)
    requires s == At(Record(Running, 5, None), OneRun(), First({0}, Idle), Second(Requeueing(2)), OneWork(Leaving))
    ensures Enabled(s, Leave(0)) && Stranded(Apply(s, Leave(0)), 0)
  {
    var left := Apply(s, Leave(0));
    assert left.works == OneWork(Done);
    assert left.runners[1].tick == Idle && left.runners[2].tick == Requeueing(2);
  }
}
