/** Safety of the runner over every interleaving. */
module RunnerSafety {
  import opened Common
  import opened ArtifactStore
  import opened Runner

  // ---------------------------------------------------------------- elementary changes

  predicate Held(s: System, id: nat) {
    (exists r :: r in s.runners && InClaim(s, r, id)) || (exists w :: 0 <= w < |s.works| && WorksOn(s, w, id))
  }

  /** Artifacts keep their key, held ones keep running, and the rest of the invariant's demands hold. */
  ghost predicate ArtifactsMayBecome(s: System, a: seq<Artifact>) {
    && |a| == |s.artifacts|
    && (forall i :: 0 <= i < |a| ==> KeyOf(a[i]) == KeyOf(s.artifacts[i]))
    && (forall i :: 0 <= i < |a| && Held(s, i) ==> a[i].status == s.artifacts[i].status)
    && (forall i :: 0 <= i < |a| && a[i].status == Pending ==> CountRuns(s.runs, i) < MAX_OPERATIONAL_RUNS)
    && OneReady(a)
  }

  lemma RunnerOkKept(a: seq<Artifact>, a': seq<Artifact>, runner: Runner)
    requires RunnerOk(a, runner) && |a| <= |a'|
    requires forall i :: 0 <= i < |a| ==> KeyOf(a'[i]) == KeyOf(a[i])
    ensures RunnerOk(a', runner)
  {
    forall id: nat | id in runner.active ensures id < |a'| && OfBlock(a'[id], runner.name, runner.version) {
      assert KeyOf(a'[id]) == KeyOf(a[id]);
    }
    forall id: nat | id in runner.queuedIdentity ensures id < |a'| && runner.queuedIdentity[id] == a'[id].identityKey {
      assert KeyOf(a'[id]) == KeyOf(a[id]);
    }
  }

  lemma ArtifactsChange(s: System, a: seq<Artifact>)
    requires Inv(s) && ArtifactsMayBecome(s, a)
    ensures Inv(s.(artifacts := a))
  {
    hide CountRuns, RunnerOk, OneReady;
    var s' := s.(artifacts := a);
    assert RunsBounded(s') by {
      forall id: nat | 0 <= id < |a| ensures CountRuns(s.runs, id) <= MAX_OPERATIONAL_RUNS {
        assert CountRuns(s.runs, id) == CountRuns(s.runs, id);
      }
    }
    forall r | r in s'.runners ensures RunnerOk(a, s'.runners[r]) {
      RunnerOkKept(s.artifacts, a, s.runners[r]);
    }
    forall r, id: nat | InClaim(s', r, id)
      ensures id < |a| && a[id].status == Running && OfBlock(a[id], s.runners[r].name, s.runners[r].version)
      ensures CountRuns(s.runs, id) < MAX_OPERATIONAL_RUNS
    {
      assert InClaim(s, r, id);
      assert Held(s, id);
      assert KeyOf(a[id]) == KeyOf(s.artifacts[id]);
    }
    forall w: nat, id: nat | WorksOn(s', w, id) ensures id < |a| && a[id].status == Running {
      assert WorksOn(s, w, id);
      assert Held(s, id);
    }
    assert ClaimsExclusive(s') by {
      forall r, r', id: nat | InClaim(s', r, id) && InClaim(s', r', id) ensures r == r' {
        assert InClaim(s, r, id) && InClaim(s, r', id);
      }
      forall r, w: nat, id: nat | InClaim(s', r, id) ensures !WorksOn(s', w, id) {
        assert InClaim(s, r, id) && !WorksOn(s, w, id);
      }
    }
    assert WorksExclusive(s') by {
      forall w: nat, w': nat, r, id: nat | Occupies(s', w, r, id) && Occupies(s', w', r, id) ensures w == w' {
        assert Occupies(s, w, r, id) && Occupies(s, w', r, id);
      }
      forall w: nat, w': nat, id: nat | WorksOn(s', w, id) && WorksOn(s', w', id) ensures w == w' {
        assert WorksOn(s, w, id) && WorksOn(s, w', id);
      }
      forall w | 0 <= w < |s'.works| && s'.works[w].stage != Done
        ensures s'.works[w].artifactId < |a| && s'.works[w].key == KeyOf(a[s'.works[w].artifactId])
      {
        assert KeyOf(a[s'.works[w].artifactId]) == KeyOf(s.artifacts[s'.works[w].artifactId]);
      }
    }
  }

  /** A fulfilment may move on, but not back to its start and not back to work. */
  ghost predicate StageMayBecome(s: System, w: nat, stage: Stage) {
    && w < |s.works| && s.works[w].stage != Done && stage != Started
    && (IsWorking(stage) ==> IsWorking(s.works[w].stage))
  }

  lemma StageChange(s: System, w: nat, stage: Stage)
    requires Inv(s) && StageMayBecome(s, w, stage)
    ensures Inv(SetStage(s, w, stage))
  {
    hide CountRuns, RunnerOk, OneReady;
    var s' := SetStage(s, w, stage);
    forall v: nat, id: nat | WorksOn(s', v, id) ensures WorksOn(s, v, id) {
      if v == w { assert WorksOn(s, w, id); }
    }
    assert RunnersOk(s') && RunsBounded(s');
    assert ClaimsExclusive(s') by {
      forall r, id: nat | InClaim(s', r, id) ensures InClaim(s, r, id) {
      }
      forall r, r', id: nat | InClaim(s', r, id) && InClaim(s', r', id) ensures r == r' {
        assert InClaim(s, r, id) && InClaim(s, r', id);
      }
    }
    assert WorksExclusive(s') by {
      forall w: nat, w': nat, r, id: nat | Occupies(s', w, r, id) && Occupies(s', w', r, id) ensures w == w' {
        assert Occupies(s, w, r, id) && Occupies(s, w', r, id);
      }
      forall v: nat, v': nat, id: nat | WorksOn(s', v, id) && WorksOn(s', v', id) ensures v == v' {
        assert WorksOn(s, v, id) && WorksOn(s, v', id);
      }
    }
  }

  /** A runner's bookkeeping may change if what is active and about to be claimed still fits. */
  ghost predicate RunnerMayBecome(s: System, r: nat, runner: Runner) {
    && r in s.runners
    && runner.name == s.runners[r].name && runner.version == s.runners[r].version
    && RunnerOk(s.artifacts, runner)
    && (forall w :: 0 <= w < |s.works| && s.works[w].runner == r && s.works[w].stage != Done ==>
          s.works[w].artifactId in runner.active)
    && (runner.tick.Claimed? ==> runner.tick == s.runners[r].tick)
  }

  lemma RunnerChange(s: System, r: nat, runner: Runner)
    requires Inv(s) && RunnerMayBecome(s, r, runner)
    ensures Inv(s.(runners := s.runners[r := runner]))
  {
    hide CountRuns, RunnerOk, OneReady;
    var s' := s.(runners := s.runners[r := runner]);
    forall q, id: nat | InClaim(s', q, id) ensures InClaim(s, q, id) {
    }
    assert RunnersOk(s') && RunsBounded(s');
    assert ClaimsExclusive(s') by {
      forall q, q', id: nat | InClaim(s', q, id) && InClaim(s', q', id) ensures q == q' {
        assert InClaim(s, q, id) && InClaim(s, q', id);
      }
      forall q, w: nat, id: nat | InClaim(s', q, id) ensures !WorksOn(s', w, id) {
        assert !WorksOn(s, w, id);
      }
    }
    assert WorksExclusive(s') by {
      forall w: nat, w': nat, r, id: nat | Occupies(s', w, r, id) && Occupies(s', w', r, id) ensures w == w' {
        assert Occupies(s, w, r, id) && Occupies(s, w', r, id);
      }
      forall w: nat, w': nat, id: nat | WorksOn(s', w, id) && WorksOn(s', w', id) ensures w == w' {
        assert WorksOn(s, w, id) && WorksOn(s, w', id);
      }
      forall w: nat, id: nat | WorksOn(s', w, id) ensures s.artifacts[id].status == Running {
        assert WorksOn(s, w, id);
      }
    }
  }

  /** A budgeted runner may claim running artifacts nobody holds. */
  ghost predicate MayClaim(s: System, r: nat, ids: seq<nat>) {
    && r in s.runners && s.runners[r].tick.Budgeted? && Distinct(ids)
    && |ids| <= Reserved(s.runners[r].tick)
    && forall id: nat :: id in ids ==>
         && id < |s.artifacts| && s.artifacts[id].status == Running && !Held(s, id)
         && OfBlock(s.artifacts[id], s.runners[r].name, s.runners[r].version)
         && CountRuns(s.runs, id) < MAX_OPERATIONAL_RUNS
  }

  lemma RunnerClaims(a: seq<Artifact>, runner: Runner, ids: seq<nat>)
    requires RunnerOk(a, runner) && |ids| <= Reserved(runner.tick)
    ensures RunnerOk(a, runner.(tick := Claimed(ids)))
  {
  }

  lemma ClaimChange(s: System, r: nat, ids: seq<nat>)
    requires Inv(s) && MayClaim(s, r, ids)
    ensures Inv(SetTick(s, r, Claimed(ids)))
  {
    hide CountRuns, OneReady, RunnerOk, Distinct;
    var s' := SetTick(s, r, Claimed(ids));
    RunnerClaims(s.artifacts, s.runners[r], ids);
    assert RunnersOk(s') && RunsBounded(s');
    forall q, id: nat | InClaim(s', q, id) && q != r ensures InClaim(s, q, id) {
    }
    assert ClaimsExclusive(s') by {
      forall q, q', id: nat | InClaim(s', q, id) && InClaim(s', q', id) ensures q == q' {
        if q != r { assert InClaim(s, q, id); assert Held(s, id); }
        if q' != r { assert InClaim(s, q', id); assert Held(s, id); }
      }
      forall q, w: nat, id: nat | InClaim(s', q, id) ensures !WorksOn(s', w, id) {
        assert WorksOn(s, w, id) ==> Held(s, id);
        assert q != r ==> !WorksOn(s, w, id);
      }
    }
    assert WorksExclusive(s') by {
      forall w: nat, w': nat, r, id: nat | Occupies(s', w, r, id) && Occupies(s', w', r, id) ensures w == w' {
        assert Occupies(s, w, r, id) && Occupies(s, w', r, id);
      }
      forall w: nat, w': nat, id: nat | WorksOn(s', w, id) && WorksOn(s', w', id) ensures w == w' {
        assert WorksOn(s, w, id) && WorksOn(s, w', id);
      }
      forall w: nat, id: nat | WorksOn(s', w, id) ensures s.artifacts[id].status == Running {
        assert WorksOn(s, w, id);
      }
    }
  }

  /** New fulfilments of running artifacts nobody holds, active at their runner. */
  ghost predicate MayStart(s: System, works: seq<Work>) {
    && (forall k :: 0 <= k < |works| ==>
          && (forall w: nat :: !Occupies(s, w, works[k].runner, works[k].artifactId))
          && works[k].stage == Started && works[k].artifactId < |s.artifacts|
          && s.artifacts[works[k].artifactId].status == Running && !Held(s, works[k].artifactId)
          && works[k].key == KeyOf(s.artifacts[works[k].artifactId])
          && works[k].runner in s.runners
          && works[k].artifactId in s.runners[works[k].runner].active
          && CountRuns(s.runs, works[k].artifactId) < MAX_OPERATIONAL_RUNS)
    && forall k, l :: 0 <= k < l < |works| ==> works[k].artifactId != works[l].artifactId
  }

  lemma WorksGrow(s: System, works: seq<Work>)
    requires Inv(s) && MayStart(s, works)
    ensures Inv(s.(works := s.works + works))
  {
    hide CountRuns, RunnerOk, OneReady;
    var s' := s.(works := s.works + works);
    var n := |s.works|;
    assert RunnersOk(s') && RunsBounded(s');
    forall r, id: nat | InClaim(s', r, id) ensures InClaim(s, r, id) {
    }
    forall w: nat, id: nat | WorksOn(s', w, id) && w < n ensures WorksOn(s, w, id) {
    }
    assert ClaimsExclusive(s') by {
      forall r, r', id: nat | InClaim(s', r, id) && InClaim(s', r', id) ensures r == r' {
        assert InClaim(s, r, id) && InClaim(s, r', id);
      }
      forall r, w: nat, id: nat | InClaim(s', r, id) ensures !WorksOn(s', w, id) {
        assert InClaim(s, r, id) && Held(s, id);
        if w < n { assert !WorksOn(s, w, id); }
      }
    }
    assert WorksExclusive(s') by {
      forall w: nat, w': nat, r, id: nat | Occupies(s', w, r, id) && Occupies(s', w', r, id) ensures w == w' {
        if w < n { assert Occupies(s, w, r, id); }
        if w' < n { assert Occupies(s, w', r, id); }
      }
      forall w: nat, w': nat, id: nat | WorksOn(s', w, id) && WorksOn(s', w', id) ensures w == w' {
        if w < n { assert WorksOn(s, w, id); assert Held(s, id); }
        if w' < n { assert WorksOn(s, w', id); assert Held(s, id); }
      }
      forall w: nat, id: nat | WorksOn(s', w, id) ensures s.artifacts[id].status == Running {
        if w < n { assert WorksOn(s, w, id); }
      }
    }
  }

  lemma CountRunsPush(runs: seq<Run>, run: Run, id: nat)
    ensures CountRuns(runs + [run], id) == CountRuns(runs, id) + (if run.artifactId == id then 1 else 0)
  {
    assert (runs + [run])[..|runs|] == runs;
  }

  /** A run may start for an artifact a fulfilment past its start works on. */
  lemma RunsGrow(s: System, w: nat, run: Run)
    requires Inv(s) && AtStage(s, w, Attempting) && run.artifactId == s.works[w].artifactId
    requires CountRuns(s.runs, run.artifactId) < MAX_OPERATIONAL_RUNS
    ensures Inv(s.(runs := s.runs + [run]))
  {
    hide CountRuns, RunnerOk, OneReady;
    var s' := s.(runs := s.runs + [run]);
    var subject := run.artifactId;
    assert WorksOn(s, w, subject);
    forall id: nat ensures CountRuns(s'.runs, id) == CountRuns(s.runs, id) + (if subject == id then 1 else 0) {
      CountRunsPush(s.runs, run, id);
    }
    assert s.artifacts[subject].status == Running;
    assert RunsBounded(s') && RunnersOk(s');
    forall r, id: nat | InClaim(s', r, id) ensures InClaim(s, r, id) && id != subject {
      assert InClaim(s, r, id);
    }
    assert ClaimsExclusive(s') by {
      forall r, r', id: nat | InClaim(s', r, id) && InClaim(s', r', id) ensures r == r' {
        assert InClaim(s, r, id) && InClaim(s, r', id);
      }
      forall r, v: nat, id: nat | InClaim(s', r, id) ensures !WorksOn(s', v, id) {
        assert !WorksOn(s, v, id);
      }
    }
    assert WorksExclusive(s') by {
      forall w: nat, w': nat, r, id: nat | Occupies(s', w, r, id) && Occupies(s', w', r, id) ensures w == w' {
        assert Occupies(s, w, r, id) && Occupies(s, w', r, id);
      }
      forall v | 0 <= v < |s'.works| && s'.works[v].stage == Started ensures s'.works[v].artifactId != subject {
        assert WorksOn(s, v, s.works[v].artifactId);
      }
      forall v: nat, v': nat, id: nat | WorksOn(s', v, id) && WorksOn(s', v', id) ensures v == v' {
        assert WorksOn(s, v, id) && WorksOn(s, v', id);
      }
      forall v: nat, id: nat | WorksOn(s', v, id) ensures s.artifacts[id].status == Running {
        assert WorksOn(s, v, id);
      }
    }
  }

  lemma {:induction false} NoRunsYet(runs: seq<Run>, id: nat)
    requires forall k :: 0 <= k < |runs| ==> runs[k].artifactId < id
    ensures CountRuns(runs, id) == 0
  {
    if runs == [] {
    } else {
      NoRunsYet(runs[..|runs| - 1], id);
    }
  }

  lemma ArtifactsGrow(s: System, a: Artifact)
    requires Inv(s) && a.status == Pending
    ensures Inv(s.(artifacts := s.artifacts + [a]))
  {
    hide CountRuns, RunnerOk;
    var s' := s.(artifacts := s.artifacts + [a]);
    NoRunsYet(s.runs, |s.artifacts|);
    assert RunsBounded(s') && OneReady(s'.artifacts);
    forall r | r in s'.runners ensures RunnerOk(s'.artifacts, s'.runners[r]) {
      RunnerOkKept(s.artifacts, s'.artifacts, s.runners[r]);
    }
    forall r, id: nat | InClaim(s', r, id) ensures InClaim(s, r, id) {
    }
    assert ClaimsExclusive(s') by {
      forall r, r', id: nat | InClaim(s', r, id) && InClaim(s', r', id) ensures r == r' {
        assert InClaim(s, r, id) && InClaim(s, r', id);
      }
      forall r, w: nat, id: nat | InClaim(s', r, id) ensures !WorksOn(s', w, id) {
        assert !WorksOn(s, w, id);
      }
    }
    assert WorksExclusive(s') by {
      forall w: nat, w': nat, r, id: nat | Occupies(s', w, r, id) && Occupies(s', w', r, id) ensures w == w' {
        assert Occupies(s, w, r, id) && Occupies(s, w', r, id);
      }
      forall w: nat, w': nat, id: nat | WorksOn(s', w, id) && WorksOn(s', w', id) ensures w == w' {
        assert WorksOn(s, w, id) && WorksOn(s, w', id);
      }
      forall w: nat, id: nat | WorksOn(s', w, id) ensures s'.artifacts[id].status == Running {
        assert WorksOn(s, w, id);
      }
    }
  }

  lemma RunnersGrow(s: System, r: nat, runner: Runner)
    requires Inv(s) && r !in s.runners && RunnerOk(s.artifacts, runner) && !runner.tick.Claimed?
    ensures Inv(s.(runners := s.runners[r := runner]))
  {
    hide CountRuns, RunnerOk, OneReady;
    var s' := s.(runners := s.runners[r := runner]);
    forall q, id: nat | InClaim(s', q, id) ensures InClaim(s, q, id) {
    }
    assert RunnersOk(s') && RunsBounded(s');
    assert ClaimsExclusive(s') by {
      forall q, q', id: nat | InClaim(s', q, id) && InClaim(s', q', id) ensures q == q' {
        assert InClaim(s, q, id) && InClaim(s, q', id);
      }
      forall q, w: nat, id: nat | InClaim(s', q, id) ensures !WorksOn(s', w, id) {
        assert !WorksOn(s, w, id);
      }
    }
    assert WorksExclusive(s') by {
      forall w: nat, w': nat, q, id: nat | Occupies(s', w, q, id) && Occupies(s', w', q, id) ensures w == w' {
        assert Occupies(s, w, q, id) && Occupies(s, w', q, id);
      }
      forall w: nat, w': nat, id: nat | WorksOn(s', w, id) && WorksOn(s', w', id) ensures w == w' {
        assert WorksOn(s, w, id) && WorksOn(s, w', id);
      }
      forall w: nat, id: nat | WorksOn(s', w, id) ensures s.artifacts[id].status == Running {
        assert WorksOn(s, w, id);
      }
    }
  }

  /** A process dies: its runner vanishes with everything it was working on. */
  lemma RunnersShrink(s: System, r: nat)
    requires Inv(s) && r in s.runners
    ensures Inv(s.(runners := s.runners - {r}, works := Retire(s.works, r)))
  {
    hide CountRuns, RunnerOk, OneReady;
    var s' := s.(runners := s.runners - {r}, works := Retire(s.works, r));
    forall q, id: nat | InClaim(s', q, id) ensures InClaim(s, q, id) {
    }
    forall w: nat, id: nat | WorksOn(s', w, id) ensures WorksOn(s, w, id) && s.works[w].runner != r {
    }
    assert RunnersOk(s') && RunsBounded(s');
    assert ClaimsExclusive(s') by {
      forall q, q', id: nat | InClaim(s', q, id) && InClaim(s', q', id) ensures q == q' {
        assert InClaim(s, q, id) && InClaim(s, q', id);
      }
      forall q, w: nat, id: nat | InClaim(s', q, id) ensures !WorksOn(s', w, id) {
        assert !WorksOn(s, w, id);
      }
    }
    assert WorksExclusive(s') by {
      forall w: nat, w': nat, q, id: nat | Occupies(s', w, q, id) && Occupies(s', w', q, id) ensures w == w' {
        assert Occupies(s, w, q, id) && Occupies(s, w', q, id);
      }
      forall w: nat, w': nat, id: nat | WorksOn(s', w, id) && WorksOn(s', w', id) ensures w == w' {
        assert WorksOn(s, w, id) && WorksOn(s, w', id);
      }
      forall w: nat, id: nat | WorksOn(s', w, id) ensures s.artifacts[id].status == Running {
        assert WorksOn(s, w, id);
      }
      forall w | 0 <= w < |s'.works| && s'.works[w].stage != Done
        ensures s'.works[w].runner in s'.runners
      {
        assert s.works[w].runner != r;
      }
    }
  }

  // ---------------------------------------------------------------- every step keeps the invariant

  lemma HeldIsRunning(s: System, id: nat)
    requires Inv(s) && Held(s, id)
    ensures id < |s.artifacts| && s.artifacts[id].status == Running
  {
    hide OneReady, RunsBounded, RunnersOk;
    if r :| r in s.runners && InClaim(s, r, id) {
    } else {
      var w :| 0 <= w < |s.works| && WorksOn(s, w, id);
    }
  }

  lemma DumpedKeepsInv(s: System, key: Key, at: int)
    requires Inv(s)
    ensures Inv(s.(artifacts := Dump(s.artifacts, key, at)))
  {
    var a := Dump(s.artifacts, key, at);
    hide Held, ClaimsExclusive, WorksExclusive, RunnersOk, CountRuns;
    forall i | 0 <= i < |a| && Held(s, i) ensures a[i].status == s.artifacts[i].status {
      HeldIsRunning(s, i);
    }
    ArtifactsChange(s, a);
  }

  lemma RequeueKeepsInv(s: System, name: string, version: string, runCount: nat, before: int, excluded: set<nat>, at: int)
    requires Inv(s) && runCount < MAX_OPERATIONAL_RUNS
    ensures Inv(s.(artifacts := Requeue(s.artifacts, s.runs, name, version, runCount, before, excluded, at)))
  {
    hide Held, ClaimsExclusive, WorksExclusive, RunnersOk, CountRuns;
    var a := Requeue(s.artifacts, s.runs, name, version, runCount, before, excluded, at);
    forall i | 0 <= i < |a| && Held(s, i) ensures a[i].status == s.artifacts[i].status {
      HeldIsRunning(s, i);
    }
    ArtifactsChange(s, a);
  }

  lemma RequeueArrivesKeepsInv(s: System, e: Event)
    requires Inv(s) && Enabled(s, e) && e.RequeueArrives?
    ensures Inv(Apply(s, e))
  {
    hide Inv, Requeue;
    var runner := s.runners[e.r];
    assert runner.tick.runCount < MAX_OPERATIONAL_RUNS && |runner.active| <= runner.parallelism by {
      RunnerIsOk(s, e.r);
    }
    RequeueKeepsInv(s, runner.name, runner.version, runner.tick.runCount, e.before, runner.tick.excluded, e.at);
    RunnerChangeTick(
      s.(artifacts := Requeue(s.artifacts, s.runs, runner.name, runner.version, runner.tick.runCount, e.before, runner.tick.excluded, e.at)),
      e.r, Requeueing(runner.tick.runCount + 1));
  }

  lemma RunnerIsOk(s: System, r: nat)
    requires Inv(s) && r in s.runners
    ensures RunnerOk(s.artifacts, s.runners[r])
  {
    hide ClaimsExclusive, WorksExclusive, RunsBounded, OneReady, RunnerOk;
  }

  lemma RunnerChangeTick(s: System, r: nat, tick: Tick)
    requires Inv(s) && r in s.runners && !tick.Claimed?
    requires |s.runners[r].active| + Reserved(tick) <= s.runners[r].parallelism
    requires tick.RequeueSent? ==> tick.runCount < MAX_OPERATIONAL_RUNS
    ensures Inv(SetTick(s, r, tick))
  {
    hide ClaimsExclusive, RunsBounded, OneReady, CountRuns;
    var runner := s.runners[r].(tick := tick);
    assert RunnerOk(s.artifacts, s.runners[r]);
    RunnerChange(s, r, runner);
  }

  lemma ClaimKeepsInv(s: System, name: string, version: string, limit: int, at: int)
    requires Inv(s)
    ensures Inv(s.(artifacts := Claim(s.artifacts, name, version, limit, at)))
  {
    hide Held, ClaimsExclusive, WorksExclusive, RunnersOk, CountRuns, WaitingAhead;
    var a := Claim(s.artifacts, name, version, limit, at);
    forall i | 0 <= i < |a| && Held(s, i) ensures a[i].status == s.artifacts[i].status {
      HeldIsRunning(s, i);
    }
    ArtifactsChange(s, a);
  }

  /** What is claimed was waiting, so nobody held it; now it runs. */
  lemma ClaimedIsFree(s: System, e: Event, id: nat)
    requires Inv(s) && Enabled(s, e) && e.ClaimArrives? && id in e.ids
    ensures
      var runner := s.runners[e.r];
      var t := s.(artifacts := Claim(s.artifacts, runner.name, runner.version, runner.tick.limit, e.at));
      && id < |s.artifacts| && !Held(t, id)
      && Waiting(s.artifacts, runner.name, runner.version, id)
      && t.artifacts[id] == ClaimOne(s.artifacts[id], e.at)
  {
    hide Held, Inv, CountRuns, WaitingAhead, SortedByAge;
    var runner := s.runners[e.r];
    var t := s.(artifacts := Claim(s.artifacts, runner.name, runner.version, runner.tick.limit, e.at));
    assert Claims(s.artifacts, runner.name, runner.version, runner.tick.limit, id);
    HeldAlike(s, t, id);
    if Held(s, id) { HeldIsRunning(s, id); }
  }

  lemma WaitingHasRunLeft(s: System, id: nat)
    requires Inv(s) && id < |s.artifacts| && s.artifacts[id].status == Pending
    ensures CountRuns(s.runs, id) < MAX_OPERATIONAL_RUNS
  {
    hide CountRuns, OneReady, ClaimsExclusive, WorksExclusive, RunnersOk;
  }

  lemma ClaimArrivesKeepsInv(s: System, e: Event)
    requires Inv(s) && Enabled(s, e) && e.ClaimArrives?
    ensures Inv(Apply(s, e))
  {
    hide Held, Inv, RunnerOk, CountRuns, WaitingAhead, SortedByAge, Claim, Claims;
    var runner := s.runners[e.r];
    ClaimKeepsInv(s, runner.name, runner.version, runner.tick.limit, e.at);
    var t := s.(artifacts := Claim(s.artifacts, runner.name, runner.version, runner.tick.limit, e.at));
    forall id | id in e.ids
      ensures id < |s.artifacts| && !Held(t, id) && Waiting(s.artifacts, runner.name, runner.version, id)
      ensures t.artifacts[id] == ClaimOne(s.artifacts[id], e.at)
    {
      ClaimedIsFree(s, e, id);
    }
    assert |e.ids| <= runner.tick.limit && RunnerOk(s.artifacts, runner) by { RunnerIsOk(s, e.r); }
    SortedIsDistinct(s.artifacts, e.ids);
    forall id | id in e.ids ensures CountRuns(t.runs, id) < MAX_OPERATIONAL_RUNS {
      WaitingHasRunLeft(s, id);
    }
    assert MayClaim(t, e.r, e.ids);
    ClaimChange(t, e.r, e.ids);
    assert Apply(s, e) == SetTick(t, e.r, Claimed(e.ids));
  }

  lemma HeldAlike(s: System, t: System, id: nat)
    requires s.runners == t.runners && s.works == t.works
    ensures Held(s, id) <==> Held(t, id)
  {
    assert forall r :: InClaim(s, r, id) <==> InClaim(t, r, id);
    assert forall w: nat :: WorksOn(s, w, id) <==> WorksOn(t, w, id);
  }

  lemma SortedIsDistinct(artifacts: seq<Artifact>, order: seq<nat>)
    requires SortedByAge(artifacts, order)
    ensures Distinct(order)
  {
    forall k, l | 0 <= k < l < |order| ensures order[k] != order[l] {
      AheadIsStrict(artifacts, order[k], order[l]);
    }
  }

  lemma {:induction false} UnheldIds(ids: seq<nat>, active: set<nat>)
    requires Distinct(ids)
    ensures Distinct(Unheld(ids, active)) && |Unheld(ids, active)| <= |ids|
    ensures forall id :: id in Unheld(ids, active) <==> id in ids && id !in active
  {
    if ids == [] {
    } else {
      assert ids == [ids[0]] + ids[1..];
      UnheldIds(ids[1..], active);
    }
  }

  lemma UnionCount<T>(a: set<T>, b: set<T>)
    ensures |a + b| <= |a| + |b|
  {
    assert |a + b| + |a * b| == |a| + |b|;
  }

  function Adopting(runner: Runner): (adopting: Runner)
    requires runner.tick.Claimed?
  {
    runner.(active := runner.active + (set id | id in Unheld(runner.tick.ids, runner.active)), tick := Idle)
  }

  lemma AdoptedRunnerOk(a: seq<Artifact>, runner: Runner)
    requires RunnerOk(a, runner) && runner.tick.Claimed? && Distinct(runner.tick.ids)
    requires forall id :: id in runner.tick.ids ==> id < |a| && OfBlock(a[id], runner.name, runner.version)
    ensures RunnerOk(a, Adopting(runner))
  {
    var unheld := Unheld(runner.tick.ids, runner.active);
    UnheldIds(runner.tick.ids, runner.active);
    DistinctCount(unheld);
    UnionCount(runner.active, Elements(unheld));
    assert Adopting(runner).active == runner.active + Elements(unheld);
  }

  /** Adoption, first half: the claim becomes part of what is active. */
  lemma ClaimBecomesActive(s: System, r: nat)
    requires Inv(s) && r in s.runners && s.runners[r].tick.Claimed?
    ensures Inv(s.(runners := s.runners[r := Adopting(s.runners[r])]))
  {
    hide CountRuns, OneReady, RunsBounded, RunnerOk;
    var runner := s.runners[r];
    assert RunnerOk(s.artifacts, runner);
    forall id | id in runner.tick.ids ensures id < |s.artifacts| && OfBlock(s.artifacts[id], runner.name, runner.version) {
      assert InClaim(s, r, id);
    }
    AdoptedRunnerOk(s.artifacts, runner);
    RunnerChange(s, r, Adopting(runner));
  }

  lemma AdoptKeepsInv(s: System, e: Event)
    requires Inv(s) && Enabled(s, e) && e.Adopt?
    ensures Inv(Apply(s, e))
  {
    hide Held, CountRuns, Inv, RunnerOk, KeyOf;
    var runner := s.runners[e.r];
    var unheld := Unheld(runner.tick.ids, runner.active);
    assert Distinct(unheld) && forall id :: id in unheld <==> id in runner.tick.ids && id !in runner.active by {
      assert Distinct(runner.tick.ids) by { ClaimIsDistinct(s, e.r); }
      UnheldIds(runner.tick.ids, runner.active);
    }
    var works := NewWorks(s, e.r, unheld);
    var t := s.(runners := s.runners[e.r := Adopting(runner)]);
    ClaimBecomesActive(s, e.r);
    forall k | 0 <= k < |unheld|
      ensures unheld[k] < |t.artifacts| && t.artifacts[unheld[k]].status == Running && !Held(t, unheld[k])
      ensures WorkKey(s, e.r, unheld[k]) == KeyOf(t.artifacts[unheld[k]])
      ensures CountRuns(t.runs, unheld[k]) < MAX_OPERATIONAL_RUNS
      ensures forall w: nat :: !Occupies(t, w, e.r, unheld[k])
    {
      assert unheld[k] in unheld;
      AdoptedIsFree(s, e.r, t, unheld[k]);
      AdoptedKey(s, e.r, unheld[k]);
    }
    WorksGrow(t, works);
    assert Adopting(runner).active == runner.active + Elements(unheld);
  }

  lemma ClaimIsDistinct(s: System, r: nat)
    requires Inv(s) && r in s.runners && s.runners[r].tick.Claimed?
    ensures Distinct(s.runners[r].tick.ids)
  {
    hide CountRuns, OneReady, RunsBounded, WorksExclusive, RunnersOk, Distinct;
  }

  lemma AdoptedIsFree(s: System, r: nat, t: System, id: nat)
    requires Inv(s) && InClaim(s, r, id) && id !in s.runners[r].active
    requires t.works == s.works && r in t.runners && !t.runners[r].tick.Claimed?
    requires t.runners == s.runners[r := t.runners[r]]
    ensures id < |s.artifacts| && s.artifacts[id].status == Running && !Held(t, id)
    ensures CountRuns(s.runs, id) < MAX_OPERATIONAL_RUNS
    ensures forall w: nat :: !Occupies(t, w, r, id)
  {
    hide CountRuns, OneReady, RunsBounded, RunnersOk;
    assert forall q :: q in t.runners && InClaim(t, q, id) ==> q != r && InClaim(s, q, id);
    assert forall w: nat :: WorksOn(t, w, id) ==> WorksOn(s, w, id);
    forall w: nat ensures !Occupies(t, w, r, id) {
      assert w < |s.works| && s.works[w].stage != Done && s.works[w].runner == r ==>
        s.works[w].artifactId in s.runners[r].active;
    }
  }

  lemma AdoptedKey(s: System, r: nat, id: nat)
    requires Inv(s) && InClaim(s, r, id)
    ensures id < |s.artifacts| && WorkKey(s, r, id) == KeyOf(s.artifacts[id])
  {
    hide CountRuns, OneReady, RunsBounded, WorksExclusive;
    assert RunnerOk(s.artifacts, s.runners[r]);
  }

  lemma WorkIsExclusive(s: System, w: nat)
    requires Inv(s) && w < |s.works| && IsWorking(s.works[w].stage)
    ensures
      var work := s.works[w];
      && WorksOn(s, w, work.artifactId) && work.artifactId < |s.artifacts|
      && s.artifacts[work.artifactId].status == Running && work.key == KeyOf(s.artifacts[work.artifactId])
      && (forall r :: !InClaim(s, r, work.artifactId))
      && (forall v: nat :: WorksOn(s, v, work.artifactId) ==> v == w)
  {
    hide CountRuns, OneReady, RunsBounded, RunnersOk;
    var id := s.works[w].artifactId;
    assert WorksOn(s, w, id);
    forall r ensures !InClaim(s, r, id) {
      assert InClaim(s, r, id) ==> !WorksOn(s, w, id);
    }
  }

  /** A fulfilment that stops working releases its artifact, which is still running. */
  lemma LeavingReleases(s: System, w: nat)
    requires Inv(s) && w < |s.works| && IsWorking(s.works[w].stage)
    ensures Inv(SetStage(s, w, Leaving)) && !Held(SetStage(s, w, Leaving), s.works[w].artifactId)
  {
    hide Inv;
    WorkIsExclusive(s, w);
    StageChange(s, w, Leaving);
    var t := SetStage(s, w, Leaving);
    var id := s.works[w].artifactId;
    assert forall r :: InClaim(t, r, id) ==> InClaim(s, r, id);
    assert forall v: nat :: WorksOn(t, v, id) ==> WorksOn(s, v, id) && v != w;
  }

  /** A released artifact may be given a final or failed status. */
  lemma ReleasedMayChange(s: System, w: nat, a: seq<Artifact>)
    requires Inv(s) && w < |s.works| && IsWorking(s.works[w].stage) && |a| == |s.artifacts|
    requires forall i :: 0 <= i < |a| ==> KeyOf(a[i]) == KeyOf(s.artifacts[i])
    requires forall i :: 0 <= i < |a| && a[i].status == Pending ==> s.artifacts[i].status == Pending
    requires forall i :: 0 <= i < |a| && i != s.works[w].artifactId ==>
      a[i].status == s.artifacts[i].status || (s.artifacts[i].status == Ready && a[i].status == Superseded)
    requires OneReady(a)
    ensures Inv(SetStage(s, w, Leaving).(artifacts := a))
  {
    hide Held, ClaimsExclusive, WorksExclusive, RunnersOk, CountRuns, OneReady;
    LeavingReleases(s, w);
    var t := SetStage(s, w, Leaving);
    forall i | 0 <= i < |a| && Held(t, i) ensures a[i].status == t.artifacts[i].status {
      HeldIsRunning(t, i);
    }
    ArtifactsChange(t, a);
  }

  lemma ReadyArrivesKeepsInv(s: System, e: Event)
    requires Inv(s) && Enabled(s, e) && e.ReadyArrives?
    ensures Inv(Apply(s, e))
  {
    hide Held, ClaimsExclusive, WorksExclusive, RunnersOk, CountRuns, RunsBounded;
    WorkIsExclusive(s, e.w);
    var id := s.works[e.w].artifactId;
    ReleasedMayChange(s, e.w, MarkReady(s.artifacts, s.works[e.w].key, id, e.output, e.at));
  }

  lemma RejectedArrivesKeepsInv(s: System, e: Event)
    requires Inv(s) && Enabled(s, e) && e.RejectedArrives?
    ensures Inv(Apply(s, e))
  {
    hide Held, ClaimsExclusive, WorksExclusive, RunnersOk, CountRuns, RunsBounded;
    WorkIsExclusive(s, e.w);
    var id := s.works[e.w].artifactId;
    ReleasedMayChange(s, e.w, s.artifacts[id := RejectedOne(s.artifacts[id], e.rejection, e.at)]);
  }

  lemma FailedArrivesKeepsInv(s: System, e: Event)
    requires Inv(s) && Enabled(s, e) && e.FailedArrives?
    ensures Inv(Apply(s, e))
  {
    hide Held, ClaimsExclusive, WorksExclusive, RunnersOk, CountRuns, RunsBounded;
    WorkIsExclusive(s, e.w);
    var id := s.works[e.w].artifactId;
    ReleasedMayChange(s, e.w, s.artifacts[id := FailedOne(s.artifacts[id], e.error, e.at)]);
  }

  lemma PhaseArrivesKeepsInv(s: System, e: Event)
    requires Inv(s) && Enabled(s, e) && e.PhaseArrives?
    ensures Inv(Apply(s, e))
  {
    hide Held, ClaimsExclusive, WorksExclusive, RunnersOk, CountRuns;
    WorkIsExclusive(s, e.w);
    var id := s.works[e.w].artifactId;
    ArtifactsChange(s, s.artifacts[id := PhasedOne(s.artifacts[id], e.phase, e.at)]);
  }

  lemma StartedHasRunLeft(s: System, w: nat)
    requires Inv(s) && AtStage(s, w, Started)
    ensures CountRuns(s.runs, s.works[w].artifactId) < MAX_OPERATIONAL_RUNS
  {
    hide CountRuns, OneReady, RunsBounded, RunnersOk, ClaimsExclusive;
  }

  lemma RunStartsKeepsInv(s: System, e: Event)
    requires Inv(s) && Enabled(s, e) && e.RunStarts?
    ensures Inv(Apply(s, e))
  {
    hide Inv, CountRuns;
    StartedHasRunLeft(s, e.w);
    StageChange(s, e.w, Attempting);
    RunsGrow(SetStage(s, e.w, Attempting), e.w, Run(s.works[e.w].artifactId, e.at, RunRunning, OPEN));
  }

  lemma OccupantsOf(s: System, w: nat)
    requires Inv(s) && AtStage(s, w, Leaving)
    ensures forall v :: 0 <= v < |s.works| && v != w && s.works[v].runner == s.works[w].runner && s.works[v].stage != Done ==>
      s.works[v].artifactId != s.works[w].artifactId
  {
    hide CountRuns, OneReady, RunsBounded, RunnersOk, ClaimsExclusive;
    forall v: nat | v < |s.works| && v != w && s.works[v].runner == s.works[w].runner && s.works[v].stage != Done
      ensures s.works[v].artifactId != s.works[w].artifactId
    {
      assert Occupies(s, w, s.works[w].runner, s.works[w].artifactId);
      assert !Occupies(s, v, s.works[w].runner, s.works[w].artifactId);
    }
  }

  lemma LeaveKeepsInv(s: System, e: Event)
    requires Inv(s) && Enabled(s, e) && e.Leave?
    ensures Inv(Apply(s, e))
  {
    hide CountRuns, OneReady, RunsBounded, ClaimsExclusive, Held;
    var work := s.works[e.w];
    OccupantsOf(s, e.w);
    StageChange(s, e.w, Done);
    var t := SetStage(s, e.w, Done);
    if work.runner in s.runners {
      var runner := s.runners[work.runner];
      assert RunnerOk(s.artifacts, runner);
      var left := runner.(active := runner.active - {work.artifactId},
                          queuedIdentity := runner.queuedIdentity - {work.artifactId});
      SubsetCount(left.active, runner.active);
      RunnerChange(t, work.runner, left);
      assert Apply(s, e) == t.(runners := s.runners[work.runner := left]);
    }
  }

  lemma RememberKeepsInv(s: System, e: Event)
    requires Inv(s) && Enabled(s, e) && (e.Remember? || e.Stop?)
    ensures Inv(Apply(s, e))
  {
    hide CountRuns, OneReady, RunsBounded, ClaimsExclusive, Held;
    assert RunnerOk(s.artifacts, s.runners[e.r]);
    RunnerChange(s, e.r, Apply(s, e).runners[e.r]);
  }

  lemma TickKeepsInv(s: System, e: Event)
    requires Inv(s) && Enabled(s, e) && (e.TickStarts? || e.RequeueLeaves? || e.BudgetTaken?)
    ensures Inv(Apply(s, e))
  {
    hide Inv, Held;
    RunnerIsOk(s, e.r);
    RunnerChangeTick(s, e.r, Apply(s, e).runners[e.r].tick);
  }

  lemma StepKeepsInv(s: System, e: Event)
    requires Inv(s) && Enabled(s, e)
    ensures Inv(Apply(s, e))
  {
    hide Inv;
    match e
    case Create(key, at) => ArtifactsGrow(s, NewArtifact(key, at));
    case Dumped(key, at) => DumpedKeepsInv(s, key, at);
    case Launch(r, name, version, p) =>
      RunnersGrow(s, r, Runner(name, version, p, {}, map[], Idle, false));
    case Die(r) => RunnersShrink(s, r);
    case Remember(_, _) => RememberKeepsInv(s, e);
    case Stop(_) => RememberKeepsInv(s, e);
    case TickStarts(_) => TickKeepsInv(s, e);
    case RequeueLeaves(_) => TickKeepsInv(s, e);
    case BudgetTaken(_) => TickKeepsInv(s, e);
    case RequeueArrives(_, _, _) => RequeueArrivesKeepsInv(s, e);
    case ClaimArrives(_, _, _) => ClaimArrivesKeepsInv(s, e);
    case Adopt(_) => AdoptKeepsInv(s, e);
    case RunStarts(_, _) => RunStartsKeepsInv(s, e);
    case PhaseArrives(_, _, _) => PhaseArrivesKeepsInv(s, e);
    case AttemptsEnd(w, stage) => StageChange(s, w, stage);
    case ReadyArrives(_, _, _) => ReadyArrivesKeepsInv(s, e);
    case RejectedArrives(_, _, _) => RejectedArrivesKeepsInv(s, e);
    case FailedArrives(_, _, _) => FailedArrivesKeepsInv(s, e);
    case Abandon(w) => StageChange(s, w, Leaving);
    case Leave(_) => LeaveKeepsInv(s, e);
  }
}
