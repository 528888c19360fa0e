/** packages/thinking-blocks/src/thinking-block.ts as a transition system. A step is a stretch
    of code without an `await`: a store call taking effect, or the bookkeeping between two
    calls. Runners of any number of processes share one store; each may be stopped, or die
    with everything it was working on. */
module Runner {
  import opened Common
  import opened ArtifactStore

  const MAX_OPERATIONAL_RUNS: nat := 3

  /** Where a runner is in its tick. The snapshot of active artifacts and the budget are taken
      before the store call that uses them takes effect. */
  datatype Tick =
    | Idle
    | Requeueing(runCount: nat)
    | RequeueSent(runCount: nat, excluded: set<nat>)
    | Budgeted(limit: int)
    | Claimed(ids: seq<nat>)

  datatype Runner = Runner(
    name: string,
    version: string,
    parallelism: nat,
    active: set<nat>,
    queuedIdentity: map<nat, string>,
    tick: Tick,
    stopped: bool)

  /** Where the fulfilment of a claimed artifact is. */
  datatype Stage = Started | Attempting | Accepted | Refused | Failing | Leaving | Done

  datatype Work = Work(runner: nat, artifactId: nat, key: Key, stage: Stage)

  datatype System = System(artifacts: seq<Artifact>, runs: seq<Run>, runners: map<nat, Runner>, works: seq<Work>)

  predicate IsWorking(stage: Stage) {
    stage == Started || stage == Attempting || stage == Accepted || stage == Refused || stage == Failing
  }

  datatype Event =
    // callers, and processes coming and going
    | Create(key: Key, at: int)
    | Dumped(key: Key, at: int)
    | Launch(r: nat, name: string, version: string, parallelism: nat)
    | Remember(r: nat, id: nat)
    | Stop(r: nat)
    | Die(r: nat)
    // the runner's tick
    | TickStarts(r: nat)
    | RequeueLeaves(r: nat)
    | RequeueArrives(r: nat, before: int, at: int)
    | BudgetTaken(r: nat)
    | ClaimArrives(r: nat, ids: seq<nat>, at: int)
    | Adopt(r: nat)
    // the fulfilment of one artifact
    | RunStarts(w: nat, at: int)
    | PhaseArrives(w: nat, phase: (string, string), at: int)
    | AttemptsEnd(w: nat, stage: Stage)
    | ReadyArrives(w: nat, output: Payload, at: int)
    | RejectedArrives(w: nat, rejection: Payload, at: int)
    | FailedArrives(w: nat, error: Payload, at: int)
    | Abandon(w: nat)
    | Leave(w: nat)

  predicate AtStage(s: System, w: nat, stage: Stage) {
    w < |s.works| && s.works[w].stage == stage
  }

  ghost predicate Enabled(s: System, e: Event) {
    match e
    case Create(key, _) => key.identity != ""
    case Dumped(key, _) => key.identity != ""
    case Launch(r, _, _, p) => r !in s.runners && p >= 1
    case Remember(r, id) =>
      r in s.runners && id < |s.artifacts| && OfBlock(s.artifacts[id], s.runners[r].name, s.runners[r].version)
    case Stop(r) => r in s.runners
    case Die(r) => r in s.runners
    case TickStarts(r) => r in s.runners && !s.runners[r].stopped && s.runners[r].tick == Idle
    case RequeueLeaves(r) =>
      r in s.runners && s.runners[r].tick.Requeueing? && s.runners[r].tick.runCount < MAX_OPERATIONAL_RUNS
    case RequeueArrives(r, _, _) => r in s.runners && s.runners[r].tick.RequeueSent?
    case BudgetTaken(r) =>
      r in s.runners && s.runners[r].tick == Requeueing(MAX_OPERATIONAL_RUNS)
    case ClaimArrives(r, ids, _) =>
      && r in s.runners && s.runners[r].tick.Budgeted?
      && SortedByAge(s.artifacts, ids) && |ids| <= s.runners[r].tick.limit
      && forall i: nat :: i in ids <==>
           Claims(s.artifacts, s.runners[r].name, s.runners[r].version, s.runners[r].tick.limit, i)
    case Adopt(r) => r in s.runners && s.runners[r].tick.Claimed?
    case RunStarts(w, _) => AtStage(s, w, Started)
    case PhaseArrives(w, _, _) => AtStage(s, w, Attempting)
    case AttemptsEnd(w, stage) => AtStage(s, w, Attempting) && (stage == Accepted || stage == Refused || stage == Failing)
    case ReadyArrives(w, _, _) => AtStage(s, w, Accepted)
    case RejectedArrives(w, _, _) => AtStage(s, w, Refused)
    case FailedArrives(w, _, _) => AtStage(s, w, Failing)
    // a throw the fulfilment does not turn into a failure: input parsing, the run's start,
    // the commit of an accepted or refused output, or recording the failure itself
    case Abandon(w) => w < |s.works| && IsWorking(s.works[w].stage) && s.works[w].stage != Attempting
    case Leave(w) => AtStage(s, w, Leaving)
  }

  function SetTick(s: System, r: nat, tick: Tick): System
    requires r in s.runners
  {
    s.(runners := s.runners[r := s.runners[r].(tick := tick)])
  }

  function SetStage(s: System, w: nat, stage: Stage): System
    requires w < |s.works|
  {
    s.(works := s.works[w := s.works[w].(stage := stage)])
  }

  /** The claimed artifacts not already active, in claim order. */
  function Unheld(ids: seq<nat>, active: set<nat>): (unheld: seq<nat>) {
    if ids == [] then []
    else if ids[0] in active then Unheld(ids[1..], active)
    else [ids[0]] + Unheld(ids[1..], active)
  }

  function WorkKey(s: System, r: nat, id: nat): Key
    requires r in s.runners && id < |s.artifacts|
  {
    var runner := s.runners[r];
    Key(runner.name, runner.version,
      if id in runner.queuedIdentity then runner.queuedIdentity[id] else s.artifacts[id].identityKey)
  }

  /** The works an adoption starts, skipping ids the store does not have. */
  function NewWorks(s: System, r: nat, ids: seq<nat>): (works: seq<Work>)
    requires r in s.runners
    ensures (forall k :: 0 <= k < |ids| ==> ids[k] < |s.artifacts|) ==>
      |works| == |ids| && forall k :: 0 <= k < |ids| ==> works[k] == Work(r, ids[k], WorkKey(s, r, ids[k]), Started)
  {
    if ids == [] then []
    else if ids[0] < |s.artifacts| then
      [Work(r, ids[0], WorkKey(s, r, ids[0]), Started)] + NewWorks(s, r, ids[1..])
    else NewWorks(s, r, ids[1..])
  }

  function Retire(works: seq<Work>, r: nat): (retired: seq<Work>)
    ensures |retired| == |works|
  {
    seq(|works|, w requires 0 <= w < |works| => if works[w].runner == r then works[w].(stage := Done) else works[w])
  }

  ghost function Apply(s: System, e: Event): (s': System)
    requires Enabled(s, e)
  {
    match e
    case Create(key, at) => s.(artifacts := s.artifacts + [NewArtifact(key, at)])
    case Dumped(key, at) => s.(artifacts := Dump(s.artifacts, key, at))
    case Launch(r, name, version, p) =>
      s.(runners := s.runners[r := Runner(name, version, p, {}, map[], Idle, false)])
    case Remember(r, id) =>
      var runner := s.runners[r];
      s.(runners := s.runners[r := runner.(queuedIdentity := runner.queuedIdentity[id := s.artifacts[id].identityKey])])
    case Stop(r) => s.(runners := s.runners[r := s.runners[r].(stopped := true)])
    case Die(r) => s.(runners := s.runners - {r}, works := Retire(s.works, r))
    case TickStarts(r) => SetTick(s, r, Requeueing(0))
    case RequeueLeaves(r) => SetTick(s, r, RequeueSent(s.runners[r].tick.runCount, s.runners[r].active))
    case RequeueArrives(r, before, at) =>
      var runner := s.runners[r];
      SetTick(s, r, Requeueing(runner.tick.runCount + 1)).(artifacts :=
        Requeue(s.artifacts, s.runs, runner.name, runner.version, runner.tick.runCount, before, runner.tick.excluded, at))
    case BudgetTaken(r) =>
      var available := s.runners[r].parallelism - |s.runners[r].active|;
      SetTick(s, r, if available <= 0 then Idle else Budgeted(available))
    case ClaimArrives(r, ids, at) =>
      var runner := s.runners[r];
      SetTick(s, r, Claimed(ids)).(artifacts :=
        Claim(s.artifacts, runner.name, runner.version, runner.tick.limit, at))
    case Adopt(r) =>
      var runner := s.runners[r];
      var unheld := Unheld(runner.tick.ids, runner.active);
      s.(runners := s.runners[r := runner.(active := runner.active + Elements(unheld), tick := Idle)],
         works := s.works + NewWorks(s, r, unheld))
    case RunStarts(w, at) =>
      SetStage(s, w, Attempting).(runs := s.runs + [Run(s.works[w].artifactId, at, RunRunning, OPEN)])
    case PhaseArrives(w, phase, at) => UpdateArtifact(s, s.works[w].artifactId, a => PhasedOne(a, phase, at))
    case AttemptsEnd(w, stage) => SetStage(s, w, stage)
    case ReadyArrives(w, output, at) =>
      var id := s.works[w].artifactId;
      SetStage(s, w, Leaving).(artifacts :=
        if id < |s.artifacts| then MarkReady(s.artifacts, s.works[w].key, id, output, at) else s.artifacts)
    case RejectedArrives(w, rejection, at) =>
      SetStage(UpdateArtifact(s, s.works[w].artifactId, a => RejectedOne(a, rejection, at)), w, Leaving)
    case FailedArrives(w, error, at) =>
      SetStage(UpdateArtifact(s, s.works[w].artifactId, a => FailedOne(a, error, at)), w, Leaving)
    case Abandon(w) => SetStage(s, w, Leaving)
    case Leave(w) =>
      var work := s.works[w];
      var left := SetStage(s, w, Done);
      if work.runner !in s.runners then left
      else
        var runner := s.runners[work.runner];
        left.(runners := s.runners[work.runner := runner.(
          active := runner.active - {work.artifactId},
          queuedIdentity := runner.queuedIdentity - {work.artifactId})])
  }

  function UpdateArtifact(s: System, id: nat, f: Artifact -> Artifact): System {
    if id < |s.artifacts| then s.(artifacts := s.artifacts[id := f(s.artifacts[id])]) else s
  }

  // ---------------------------------------------------------------- the invariant

  predicate InClaim(s: System, r: nat, id: nat) {
    r in s.runners && s.runners[r].tick.Claimed? && id in s.runners[r].tick.ids
  }

  predicate WorksOn(s: System, w: nat, id: nat) {
    w < |s.works| && IsWorking(s.works[w].stage) && s.works[w].artifactId == id
  }

  /** A fulfilment of runner r on the artifact that has not gone yet, working or not. */
  predicate Occupies(s: System, w: nat, r: nat, id: nat) {
    w < |s.works| && s.works[w].stage != Done && s.works[w].runner == r && s.works[w].artifactId == id
  }

  /** At most one ready artifact per block, version and identity. */
  ghost predicate OneReady(artifacts: seq<Artifact>) {
    forall i, j :: 0 <= i < j < |artifacts| && artifacts[i].status == Ready && artifacts[j].status == Ready ==>
      KeyOf(artifacts[i]) != KeyOf(artifacts[j])
  }

  /** No artifact exceeds its runs, and a waiting one still has a run left. */
  ghost predicate RunsBounded(s: System) {
    && (forall k :: 0 <= k < |s.runs| ==> s.runs[k].artifactId < |s.artifacts|)
    && forall id :: 0 <= id < |s.artifacts| ==>
         && CountRuns(s.runs, id) <= MAX_OPERATIONAL_RUNS
         && (s.artifacts[id].status == Pending ==> CountRuns(s.runs, id) < MAX_OPERATIONAL_RUNS)
  }

  /** A claimed artifact is running, has a run left, and nobody else claimed it or works on it. */
  ghost predicate ClaimsExclusive(s: System) {
    && (forall r, id: nat :: InClaim(s, r, id) ==>
          && id < |s.artifacts| && s.artifacts[id].status == Running
          && OfBlock(s.artifacts[id], s.runners[r].name, s.runners[r].version)
          && CountRuns(s.runs, id) < MAX_OPERATIONAL_RUNS)
    && (forall r, r', id :: InClaim(s, r, id) && InClaim(s, r', id) ==> r == r')
    && (forall r, w, id :: InClaim(s, r, id) ==> !WorksOn(s, w, id))
    && (forall r :: r in s.runners && s.runners[r].tick.Claimed? ==> Distinct(s.runners[r].tick.ids))
  }

  /** A fulfilment works on a running artifact, alone, under that artifact's own key. */
  ghost predicate WorksExclusive(s: System) {
    && (forall w :: 0 <= w < |s.works| && s.works[w].stage != Done ==>
          && s.works[w].artifactId < |s.artifacts|
          && s.works[w].key == KeyOf(s.artifacts[s.works[w].artifactId])
          && s.works[w].runner in s.runners
          && s.works[w].artifactId in s.runners[s.works[w].runner].active)
    && (forall w, id: nat :: WorksOn(s, w, id) ==> s.artifacts[id].status == Running)
    && (forall w :: 0 <= w < |s.works| && s.works[w].stage == Started ==>
          CountRuns(s.runs, s.works[w].artifactId) < MAX_OPERATIONAL_RUNS)
    && (forall w, w', id :: WorksOn(s, w, id) && WorksOn(s, w', id) ==> w == w')
    && (forall w, w', r, id :: Occupies(s, w, r, id) && Occupies(s, w', r, id) ==> w == w')
  }

  /** What a runner holds belongs to its block and fits its parallelism, counting what it is
      about to claim or adopt. */
  ghost predicate RunnerOk(artifacts: seq<Artifact>, runner: Runner) {
    && (forall id :: id in runner.active ==>
          id < |artifacts| && OfBlock(artifacts[id], runner.name, runner.version))
    && (forall id :: id in runner.queuedIdentity ==>
          id < |artifacts| && runner.queuedIdentity[id] == artifacts[id].identityKey)
    && |runner.active| + Reserved(runner.tick) <= runner.parallelism
    && (runner.tick.RequeueSent? ==> runner.tick.runCount < MAX_OPERATIONAL_RUNS)
  }

  function Reserved(tick: Tick): int {
    match tick
    case Budgeted(limit) => if limit > 0 then limit else 0
    case Claimed(ids) => |ids|
    case _ => 0
  }

  ghost predicate RunnersOk(s: System) {
    forall r :: r in s.runners ==> RunnerOk(s.artifacts, s.runners[r])
  }

  ghost predicate Inv(s: System) {
    OneReady(s.artifacts) && RunsBounded(s) && ClaimsExclusive(s) && WorksExclusive(s) && RunnersOk(s)
  }

  ghost predicate Initial(s: System) {
    s == System([], [], map[], [])
  }

  lemma InitialInv(s: System)
    requires Initial(s)
    ensures Inv(s)
  {
  }
}
