/** What the runner's steps do to an artifact, and what of it lasts. */
module RunnerCommits {
  import opened Common
  import opened ArtifactStore
  import opened Runner
  import opened RunnerSafety
  import opened RunnerLaws

  // ---------------------------------------------------------------- what each step writes

  /** The artifact a fulfilment's commit is about. */
  ghost predicate Commits(s: System, e: Event, id: nat) {
    && (e.ReadyArrives? || e.RejectedArrives? || e.FailedArrives?)
    && e.w < |s.works| && s.works[e.w].artifactId == id
  }

  /** Each commit, of an output, a rejection or a failure, is of a running artifact and leaves exactly that. */
  lemma CommitsWrite(s: System, e: Event, id: nat)
    requires Inv(s) && Enabled(s, e) && Commits(s, e, id)
    ensures id < |s.artifacts| == |Apply(s, e).artifacts| && s.artifacts[id].status == Running
    ensures
      var was, now := s.artifacts[id], Apply(s, e).artifacts[id];
      match e
      case ReadyArrives(_, output, at) =>
        now == was.(status := Ready, output := Some(output), rejection := None, error := None,
          readyAt := Some(at), updatedAt := at)
      case RejectedArrives(_, rejection, at) =>
        now == was.(status := Rejected, rejection := Some(rejection), error := None, updatedAt := at)
      case FailedArrives(_, error, at) =>
        now == was.(status := Failed, error := Some(error), updatedAt := at)
      case _ => true
  {
    WorkIsExclusive(s, e.w);
    hide Inv, CountRuns, SortedByAge, Claims;
  }

  /** A status changes in no other way than these: a failed artifact is requeued, a waiting one claimed, a
      running one committed by the fulfilment that works on it, and a ready one dumped or replaced by
      another of its key. */
  ghost predicate StatusMoves(s: System, e: Event, id: nat, was: Artifact, now: Artifact) {
    now.status != was.status ==>
      match now.status
      case Pending => was.status == Failed && e.RequeueArrives?
      case Running => was.status == Pending && e.ClaimArrives? && id in e.ids
      case Ready => was.status == Running && e.ReadyArrives? && Commits(s, e, id)
      case Rejected => was.status == Running && e.RejectedArrives? && Commits(s, e, id)
      case Failed => was.status == Running && e.FailedArrives? && Commits(s, e, id)
      case Superseded =>
        && was.status == Ready
        && (|| (e.Dumped? && e.key == KeyOf(was))
            || (e.ReadyArrives? && e.w < |s.works| && !Commits(s, e, id) && s.works[e.w].key == KeyOf(was)))
  }

  lemma StatusesMove(s: System, e: Event, id: nat)
    requires Inv(s) && Enabled(s, e) && id < |s.artifacts|
    ensures id < |Apply(s, e).artifacts| && StatusMoves(s, e, id, s.artifacts[id], Apply(s, e).artifacts[id])
  {
    hide Inv, Apply, Enabled, StatusMoves;
    if e.ClaimArrives? {
      MovedByClaim(s, e, id);
    } else if e.ReadyArrives? || e.RejectedArrives? || e.FailedArrives? {
      MovedByCommit(s, e, id);
    } else {
      MovedOtherwise(s, e, id);
    }
  }

  lemma MovedByClaim(s: System, e: Event, id: nat)
    requires Enabled(s, e) && e.ClaimArrives? && id < |s.artifacts|
    ensures id < |Apply(s, e).artifacts| && StatusMoves(s, e, id, s.artifacts[id], Apply(s, e).artifacts[id])
  {
    ClaimMoves(s, e, id);
    hide Apply, Enabled;
  }

  lemma MovedByCommit(s: System, e: Event, id: nat)
    requires Inv(s) && Enabled(s, e) && id < |s.artifacts|
    requires e.ReadyArrives? || e.RejectedArrives? || e.FailedArrives?
    ensures id < |Apply(s, e).artifacts| && StatusMoves(s, e, id, s.artifacts[id], Apply(s, e).artifacts[id])
  {
    hide Inv, Apply, Enabled;
    CommitIsOfWork(s, e);
    if s.works[e.w].artifactId == id {
      CommitsWrite(s, e, id);
    } else {
      CommitLeaves(s, e, id);
    }
  }

  lemma CommitIsOfWork(s: System, e: Event)
    requires Enabled(s, e) && (e.ReadyArrives? || e.RejectedArrives? || e.FailedArrives?)
    ensures e.w < |s.works|
  {}

  lemma CommitLeaves(s: System, e: Event, id: nat)
    requires Enabled(s, e) && id < |s.artifacts| && (e.ReadyArrives? || e.RejectedArrives? || e.FailedArrives?)
    requires s.works[e.w].artifactId != id
    ensures id < |Apply(s, e).artifacts|
    ensures
      var was, now := s.artifacts[id], Apply(s, e).artifacts[id];
      || now == was
      || (e.ReadyArrives? && was.status == Ready && now.status == Superseded && KeyOf(was) == s.works[e.w].key)
  {
    hide CountRuns, SortedByAge, Claims, Unheld, NewWorks, Retire, Claim, Requeue, Dump, MarkReady, KeyOf;
    var winner := s.works[e.w].artifactId;
    if e.ReadyArrives? && winner < |s.artifacts| {
      MarkReadyElsewhere(s.artifacts, s.works[e.w].key, winner, e.output, e.at, id);
    }
  }

  lemma MarkReadyElsewhere(artifacts: seq<Artifact>, key: Key, winner: nat, output: Payload, at: int, id: nat)
    requires winner < |artifacts| && id < |artifacts| && id != winner
    ensures
      var was, now := artifacts[id], MarkReady(artifacts, key, winner, output, at)[id];
      now == was || (was.status == Ready && now.status == Superseded && KeyOf(was) == key)
  {}

  lemma MovedOtherwise(s: System, e: Event, id: nat)
    requires Enabled(s, e) && id < |s.artifacts|
    requires !e.ClaimArrives? && !e.ReadyArrives? && !e.RejectedArrives? && !e.FailedArrives?
    ensures id < |Apply(s, e).artifacts| && StatusMoves(s, e, id, s.artifacts[id], Apply(s, e).artifacts[id])
  {
    hide CountRuns, SortedByAge, Claims, Unheld, NewWorks, Retire, MarkReady, Claim;
  }

  lemma ClaimMoves(s: System, e: Event, id: nat)
    requires Enabled(s, e) && e.ClaimArrives? && id < |s.artifacts|
    ensures |Apply(s, e).artifacts| == |s.artifacts|
    ensures id in e.ids ==>
      && s.artifacts[id].status == Pending
      && Apply(s, e).artifacts[id] == s.artifacts[id].(status := Running, updatedAt := e.at, error := None)
    ensures id !in e.ids ==> Apply(s, e).artifacts[id] == s.artifacts[id]
  {
    hide SortedByAge, WaitingAhead;
    var runner := s.runners[e.r];
    assert id in e.ids <==> Claims(s.artifacts, runner.name, runner.version, runner.tick.limit, id);
  }

  /** A requeue puts back exactly the failed artifacts of the block that the runner did not count as active
      when it asked, are old enough and have had exactly as many runs as this round is for; then comes
      the round for one run more. */
  lemma RequeueWrites(s: System, e: Event, id: nat)
    requires Enabled(s, e) && e.RequeueArrives? && id < |s.artifacts|
    ensures
      var runner, was, s' := s.runners[e.r], s.artifacts[id], Apply(s, e);
      && |s'.artifacts| == |s.artifacts|
      && s'.runners[e.r].tick == Requeueing(runner.tick.runCount + 1)
      && s'.artifacts[id] ==
           if was.blockName == runner.name && was.blockVersion == runner.version && was.status == Failed
              && id !in runner.tick.excluded && was.updatedAt <= e.before
              && |RunsOf(s.runs, id)| == runner.tick.runCount then
             was.(status := Pending, updatedAt := e.at, error := None)
           else was
  {
    CountRunsIsNumber(s.runs, id);
    hide CountRuns, RunsOf;
  }

  // ---------------------------------------------------------------- what lasts

  /** Once refused, an artifact stays rejected for that reason in every later state of the run: it is
      never generated again. */
  lemma RejectionLasts(states: seq<System>, events: seq<Event>, i: nat, j: nat, id: nat)
    requires IsRun(states, events) && i < j < |states|
    requires events[i].RejectedArrives? && Commits(states[i], events[i], id)
    ensures id < |states[j].artifacts| && states[j].artifacts[id].status == Rejected
    ensures states[j].artifacts[id].rejection == Some(events[i].rejection)
  {
    assert |states| == |events| + 1;
    hide Inv, Apply, Enabled, IsRun;
    AfterCommit(states, events, i, id);
    FinalStatusesAreFinal(states, events, i + 1, j, id);
  }

  /** Once ready, it keeps its output in every later state, and is ready until another of its key replaces
      it or it is dumped. */
  lemma OutputLasts(states: seq<System>, events: seq<Event>, i: nat, j: nat, id: nat)
    requires IsRun(states, events) && i < j < |states|
    requires events[i].ReadyArrives? && Commits(states[i], events[i], id)
    ensures id < |states[i + 1].artifacts| && states[i + 1].artifacts[id].status == Ready
    ensures id < |states[j].artifacts| && states[j].artifacts[id].status in {Ready, Superseded}
    ensures states[j].artifacts[id].output == Some(events[i].output)
  {
    assert |states| == |events| + 1;
    hide Inv, Apply, Enabled, IsRun;
    AfterCommit(states, events, i, id);
    FinalStatusesAreFinal(states, events, i + 1, j, id);
    var a, b := states[i + 1].artifacts[id], states[j].artifacts[id];
    OutputIsKept(a, b);
  }

  lemma OutputIsKept(a: Artifact, b: Artifact)
    requires a.status == Ready && FinalKept(a, b)
    ensures b.output == a.output && b.status in {Ready, Superseded}
  {}

  lemma AfterCommit(states: seq<System>, events: seq<Event>, i: nat, id: nat)
    requires IsRun(states, events) && i < |events| && Commits(states[i], events[i], id)
    ensures id < |states[i].artifacts| == |states[i + 1].artifacts|
    ensures events[i].RejectedArrives? ==>
      states[i + 1].artifacts[id].status == Rejected && states[i + 1].artifacts[id].rejection == Some(events[i].rejection)
    ensures events[i].ReadyArrives? ==>
      states[i + 1].artifacts[id].status == Ready && states[i + 1].artifacts[id].output == Some(events[i].output)
  {
    RunKeepsInv(states, events, i);
    IsRunLeads(states, events, i);
    CommitsWrite(states[i], events[i], id);
  }

  // ---------------------------------------------------------------- no slot leaks

  /** Something the runner counts as active has a fulfilment of the runner that is not over. */
  ghost predicate ActiveAreOccupied(s: System) {
    forall r, id :: IsActive(s, r, id) ==> IsOccupied(s, r, id)
  }

  ghost predicate IsOccupied(s: System, r: nat, id: nat) {
    exists w: nat :: Occupies(s, w, r, id)
  }

  lemma StepKeepsOccupied(s: System, e: Event)
    requires Inv(s) && Enabled(s, e) && ActiveAreOccupied(s)
    ensures ActiveAreOccupied(Apply(s, e))
  {
    hide Inv, Apply, Enabled;
    forall r, id | IsActive(Apply(s, e), r, id) ensures IsOccupied(Apply(s, e), r, id) {
      if IsActive(s, r, id) {
        var w: nat :| Occupies(s, w, r, id);
        StaysOccupied(s, e, r, id, w);
      } else {
        BecomesOccupied(s, e, r, id);
      }
    }
  }

  lemma StaysOccupied(s: System, e: Event, r: nat, id: nat, w: nat)
    requires Inv(s) && Enabled(s, e) && Occupies(s, w, r, id) && IsActive(Apply(s, e), r, id)
    ensures Occupies(Apply(s, e), w, r, id)
  {
    hide Inv, CountRuns, SortedByAge, Claims, Unheld, NewWorks, Dump, Requeue, Claim, MarkReady;
  }

  lemma BecomesOccupied(s: System, e: Event, r: nat, id: nat)
    requires Inv(s) && Enabled(s, e) && !IsActive(s, r, id) && IsActive(Apply(s, e), r, id)
    ensures IsOccupied(Apply(s, e), r, id)
  {
    OnlyAdoptionActivates(s, e, r, id);
    hide Inv, Apply, Enabled, Unheld, InClaim, IsActive, Occupies;
    var unheld := Unheld(s.runners[r].tick.ids, s.runners[r].active);
    var k :| 0 <= k < |unheld| && unheld[k] == id;
    NewWorkOccupies(s, e, k);
  }

  lemma NewWorkOccupies(s: System, e: Event, k: nat)
    requires Inv(s) && Enabled(s, e) && e.Adopt? && e.r in s.runners && s.runners[e.r].tick.Claimed?
    requires k < |Unheld(s.runners[e.r].tick.ids, s.runners[e.r].active)|
    ensures
      Occupies(Apply(s, e), |s.works| + k, e.r, Unheld(s.runners[e.r].tick.ids, s.runners[e.r].active)[k])
  {
    var unheld := Unheld(s.runners[e.r].tick.ids, s.runners[e.r].active);
    AdoptedWorks(s, e);
    assert forall l :: 0 <= l < |unheld| ==> unheld[l] < |s.artifacts| by { hide InClaim; UnheldAreClaimed(s, e); }
    hide Inv, Apply, Enabled, Unheld;
    NewWorkAt(s, e.r, unheld, k);
    Appended(s.works, NewWorks(s, e.r, unheld), k);
  }

  lemma NewWorkAt(s: System, r: nat, ids: seq<nat>, k: nat)
    requires r in s.runners && k < |ids| && forall l :: 0 <= l < |ids| ==> ids[l] < |s.artifacts|
    ensures k < |NewWorks(s, r, ids)|
    ensures
      var work := NewWorks(s, r, ids)[k];
      work.runner == r && work.artifactId == ids[k] && work.stage == Started
  {
    hide WorkKey;
    assert NewWorks(s, r, ids)[k] == Work(r, ids[k], WorkKey(s, r, ids[k]), Started);
  }

  lemma Appended(works: seq<Work>, more: seq<Work>, k: nat)
    requires k < |more|
    ensures (works + more)[|works| + k] == more[k]
  {}

  lemma OnlyAdoptionActivates(s: System, e: Event, r: nat, id: nat)
    requires Enabled(s, e) && !IsActive(s, r, id) && IsActive(Apply(s, e), r, id)
    ensures e.Adopt? && e.r == r && id in Unheld(s.runners[r].tick.ids, s.runners[r].active)
  {
    hide CountRuns, SortedByAge, Claims, Unheld, NewWorks, Retire, Dump, Requeue, Claim, MarkReady;
  }

  lemma {:induction false} RunKeepsOccupied(states: seq<System>, events: seq<Event>, i: nat)
    requires IsRun(states, events) && i < |states|
    ensures ActiveAreOccupied(states[i])
  {
    hide Inv, Apply, Enabled, ActiveAreOccupied;
    if i == 0 {
      NobodyIsActive(states[0]);
    } else {
      RunKeepsOccupied(states, events, i - 1);
      RunKeepsInv(states, events, i - 1);
      assert Leads(states, events, i - 1);
      StepKeepsOccupied(states[i - 1], events[i - 1]);
    }
  }

  lemma NobodyIsActive(s: System)
    requires Initial(s)
    ensures ActiveAreOccupied(s)
  {}

  /** The fulfilments of a runner that are not over. */
  ghost function Unfinished(s: System, r: nat): (ws: set<nat>) {
    set w | 0 <= w < |s.works| && s.works[w].runner == r && s.works[w].stage != Done
  }

  /** In every state a runner's active set is exactly the artifacts of its unfinished fulfilments, one
      each: every slot taken is given back when its fulfilment ends, however that ends. */
  lemma NoSlotLeaks(states: seq<System>, events: seq<Event>, i: nat, r: nat)
    requires IsRun(states, events) && i < |states| && r in states[i].runners
    ensures
      var s := states[i];
      && (forall id: nat :: id in s.runners[r].active <==> exists w :: w in Unfinished(s, r) && s.works[w].artifactId == id)
      && |s.runners[r].active| == |Unfinished(s, r)|
  {
    var s := states[i];
    RunKeepsInv(states, events, i);
    RunKeepsOccupied(states, events, i);
    hide IsRun, CountRuns, OneReady, RunsBounded, ClaimsExclusive, RunnersOk;
    forall id: nat ensures id in s.runners[r].active <==> exists w :: w in Unfinished(s, r) && s.works[w].artifactId == id {
      if id in s.runners[r].active {
        assert IsActive(s, r, id) && IsOccupied(s, r, id);
        var w: nat :| Occupies(s, w, r, id);
        assert w in Unfinished(s, r);
      }
    }
    forall w, v | w in Unfinished(s, r) && v in Unfinished(s, r) && s.works[w].artifactId == s.works[v].artifactId
      ensures w == v
    {
      assert Occupies(s, w, r, s.works[w].artifactId) && Occupies(s, v, r, s.works[v].artifactId);
    }
    ImageCount(s, Unfinished(s, r), s.runners[r].active);
  }

  lemma {:induction false} ImageCount(s: System, ws: set<nat>, ids: set<nat>)
    requires forall w :: w in ws ==> w < |s.works|
    requires forall w, v :: w in ws && v in ws && s.works[w].artifactId == s.works[v].artifactId ==> w == v
    requires forall id: nat :: id in ids <==> exists w :: w in ws && s.works[w].artifactId == id
    ensures |ws| == |ids|
    decreases |ws|
  {
    if ws == {} {
      assert ids == {};
    } else {
      var w :| w in ws;
      var id := s.works[w].artifactId;
      forall x: nat ensures x in ids - {id} <==> exists v :: v in ws - {w} && s.works[v].artifactId == x {
        if x in ids - {id} {
          var v :| v in ws && s.works[v].artifactId == x;
          assert v in ws - {w};
        }
      }
      ImageCount(s, ws - {w}, ids - {id});
    }
  }

  // ---------------------------------------------------------------- every free slot is used

  lemma {:induction false} WaitingListed(artifacts: seq<Artifact>, name: string, version: string, n: nat) returns (picked: seq<nat>)
    requires n <= |artifacts|
    ensures forall k, l :: 0 <= k < l < |picked| ==> picked[k] < picked[l]
    ensures forall i: nat :: i in picked <==> i < n && Waiting(artifacts, name, version, i)
  {
    if n == 0 {
      picked := [];
    } else {
      picked := WaitingListed(artifacts, name, version, n - 1);
      assert forall k :: 0 <= k < |picked| ==> picked[k] in picked;
      if Waiting(artifacts, name, version, n - 1) { picked := picked + [n - 1]; }
    }
  }

  /** A tick asks for as many artifacts as there are free slots, and for none without one; the claim fills
      them all, or leaves nothing of the block waiting. */
  lemma ClaimFillsSlots(states: seq<System>, events: seq<Event>, i: nat)
    requires IsRun(states, events) && i < |events|
    ensures
      var (s, s', e) := (states[i], states[i + 1], events[i]);
      && (e.BudgetTaken? && e.r in s.runners ==>
           var free := s.runners[e.r].parallelism - |Unfinished(s, e.r)|;
           e.r in s'.runners && s'.runners[e.r].tick == if free > 0 then Budgeted(free) else Idle)
      && (e.ClaimArrives? && e.r in s.runners && s.runners[e.r].tick.Budgeted? ==>
           var runner := s.runners[e.r];
           && e.r in s'.runners && s'.runners[e.r].tick == Claimed(e.ids) && |e.ids| <= runner.tick.limit
           && (|e.ids| < runner.tick.limit ==>
                forall id: nat :: IsPending(s.artifacts, runner.name, runner.version, id) ==> id in e.ids))
  {
    var (s, e) := (states[i], events[i]);
    IsRunLeads(states, events, i);
    if e.BudgetTaken? && e.r in s.runners {
      NoSlotLeaks(states, events, i, e.r);
      hide IsRun, CountRuns;
    } else if e.ClaimArrives? && e.r in s.runners && s.runners[e.r].tick.Budgeted? {
      var runner := s.runners[e.r];
      assert |e.ids| <= runner.tick.limit;
      assert Apply(s, e).runners[e.r].tick == Claimed(e.ids) by { hide IsRun, SortedByAge, Claims, Claim; }
      hide IsRun, Apply;
      ClaimFills(s.artifacts, runner.name, runner.version, runner.tick.limit, e.ids);
    }
  }

  lemma WaitingSorted(artifacts: seq<Artifact>, name: string, version: string) returns (order: seq<nat>)
    ensures SortedByAge(artifacts, order)
    ensures forall i: nat :: i in order <==> Waiting(artifacts, name, version, i)
  {
    hide Waiting, SortedByAge, SortByAge;
    var picked := WaitingListed(artifacts, name, version, |artifacts|);
    forall k | 0 <= k < |picked| ensures picked[k] < |artifacts| { assert picked[k] in picked; }
    order := SortByAge(artifacts, picked);
    SortByAgeSorts(artifacts, picked);
    SortedElements(artifacts, picked);
    forall i: nat ensures i in order <==> Waiting(artifacts, name, version, i) {
      assert i in order <==> i in Elements(order);
      assert i in picked <==> i in Elements(picked);
      if Waiting(artifacts, name, version, i) { IsInRange(artifacts, name, version, i); }
    }
  }

  lemma IsInRange(artifacts: seq<Artifact>, name: string, version: string, i: nat)
    requires Waiting(artifacts, name, version, i)
    ensures i < |artifacts|
  {}

  lemma PendingIsWaiting(artifacts: seq<Artifact>, name: string, version: string)
    ensures forall id: nat :: IsPending(artifacts, name, version, id) ==> Waiting(artifacts, name, version, id)
  {}

  lemma ClaimFills(artifacts: seq<Artifact>, name: string, version: string, limit: int, ids: seq<nat>)
    requires SortedByAge(artifacts, ids)
    requires forall i: nat :: i in ids <==> Claims(artifacts, name, version, limit, i)
    ensures |ids| < limit ==> forall id: nat :: IsPending(artifacts, name, version, id) ==> id in ids
  {
    PendingIsWaiting(artifacts, name, version);
    SortedIsDistinct(artifacts, ids);
    hide Waiting, SortedByAge, Claims, IsPending;
    if |ids| < limit {
      var order := WaitingSorted(artifacts, name, version);
      var claimed := if limit < |order| then order[..limit] else order;
      PrefixIsClaim(artifacts, name, version, order, limit, claimed);
      SameLength(ids, claimed);
      assert claimed == order;
    }
  }

  lemma SameLength(a: seq<nat>, b: seq<nat>)
    requires Distinct(a) && Distinct(b) && forall i: nat :: i in a <==> i in b
    ensures |a| == |b|
  {
    DistinctCount(a);
    DistinctCount(b);
    assert Elements(a) == Elements(b);
  }
}
