/** packages/thinking-blocks/src/memory-store.ts. An artifact's id is its position: random
    ids never repeat and artifacts are never removed, so the position is as good a name.
    Records leave the store only as copies, so they are values here. */
module ArtifactStore {
  import opened Common

  datatype Status = Pending | Running | Ready | Rejected | Failed | Superseded

  type Payload = string

  datatype Artifact = Artifact(
    blockName: string,
    blockVersion: string,
    identityKey: string,
    status: Status,
    output: Option<Payload>,
    rejection: Option<Payload>,
    error: Option<Payload>,
    phase: Option<(string, string)>,
    phaseAt: Option<int>,
    createdAt: int,
    updatedAt: int,
    readyAt: Option<int>,
    supersededBy: Option<nat>,
    supersededAt: Option<int>)

  datatype RunStatus = RunRunning | RunSuccess | RunRejected | RunFailed

  /** What closing a run leaves on its record. */
  datatype Closing = Closing(
    finishedAt: Option<int>,
    finish: Option<Payload>,
    rejection: Option<(string, Payload)>,
    error: Option<Payload>)

  const OPEN: Closing := Closing(None, None, None, None)

  datatype Run = Run(artifactId: nat, startedAt: int, status: RunStatus, closing: Closing)

  datatype PhaseUpdate = PhaseUpdate(artifactId: nat, phase: (string, string), at: int)

  /** The block version and identity artifacts compete for. */
  datatype Key = Key(blockName: string, blockVersion: string, identity: string)

  predicate OfBlock(a: Artifact, name: string, version: string) {
    a.blockName == name && a.blockVersion == version
  }

  function KeyOf(a: Artifact): Key {
    Key(a.blockName, a.blockVersion, a.identityKey)
  }

  // ---------------------------------------------------------------- meaning of the operations

  function NewArtifact(key: Key, createdAt: int): (a: Artifact) {
    Artifact(key.blockName, key.blockVersion, key.identity, Pending, None, None, None, None, None,
      createdAt, createdAt, None, None, None)
  }

  /** The comparator of a claim: least recently updated first, then least recently created. */
  predicate Older(a: Artifact, b: Artifact) {
    a.updatedAt < b.updatedAt || (a.updatedAt == b.updatedAt && a.createdAt < b.createdAt)
  }

  /** The order a stable sort by that comparator gives positions. */
  predicate Ahead(artifacts: seq<Artifact>, i: nat, j: nat)
    requires i < |artifacts| && j < |artifacts|
  {
    Older(artifacts[i], artifacts[j]) || (!Older(artifacts[j], artifacts[i]) && i < j)
  }

  predicate Waiting(artifacts: seq<Artifact>, name: string, version: string, i: nat) {
    i < |artifacts| && OfBlock(artifacts[i], name, version) && artifacts[i].status == Pending
  }

  /** The waiting artifacts ahead of position j. */
  ghost function WaitingAhead(artifacts: seq<Artifact>, name: string, version: string, j: nat): (ahead: set<nat>)
    requires j < |artifacts|
  {
    set i | i in Below(|artifacts|) && Waiting(artifacts, name, version, i) && Ahead(artifacts, i, j)
  }

  /** A claim takes exactly the waiting artifacts with fewer than limit others ahead of them. */
  ghost predicate Claims(artifacts: seq<Artifact>, name: string, version: string, limit: int, i: nat) {
    Waiting(artifacts, name, version, i) && |WaitingAhead(artifacts, name, version, i)| < limit
  }

  function ClaimOne(a: Artifact, at: int): Artifact {
    a.(status := Running, updatedAt := at, error := None)
  }

  ghost function Claim(artifacts: seq<Artifact>, name: string, version: string, limit: int, at: int): (r: seq<Artifact>)
    ensures |r| == |artifacts|
  {
    seq(|artifacts|, i requires 0 <= i < |artifacts| =>
      if Claims(artifacts, name, version, limit, i) then ClaimOne(artifacts[i], at) else artifacts[i])
  }

  function CountRuns(runs: seq<Run>, artifactId: nat): (n: nat)
    ensures n <= |runs|
  {
    if runs == [] then 0
    else CountRuns(runs[..|runs| - 1], artifactId) + (if runs[|runs| - 1].artifactId == artifactId then 1 else 0)
  }

  ghost function RunsOf(runs: seq<Run>, artifactId: nat): (positions: set<nat>) {
    set k | 0 <= k < |runs| && runs[k].artifactId == artifactId
  }

  /** Counting the runs of an artifact counts the positions at which one of them is. */
  lemma {:induction false} CountRunsIsNumber(runs: seq<Run>, artifactId: nat)
    ensures CountRuns(runs, artifactId) == |RunsOf(runs, artifactId)|
  {
    if runs == [] {
    } else {
      var last := |runs| - 1;
      CountRunsIsNumber(runs[..last], artifactId);
      var before := RunsOf(runs[..last], artifactId);
      if runs[last].artifactId == artifactId {
        assert RunsOf(runs, artifactId) == before + {last};
      } else {
        assert RunsOf(runs, artifactId) == before;
      }
    }
  }

  /** The failed artifact a, at position i, goes back in the queue. */
  predicate Requeues(a: Artifact, i: nat, runs: seq<Run>, name: string, version: string,
                     runCount: nat, before: int, excluded: set<nat>) {
    && OfBlock(a, name, version) && a.status == Failed
    && i !in excluded && a.updatedAt <= before && CountRuns(runs, i) == runCount
  }

  function RequeueOne(a: Artifact, at: int): Artifact {
    a.(status := Pending, updatedAt := at, error := None)
  }

  function Requeue(artifacts: seq<Artifact>, runs: seq<Run>, name: string, version: string,
                   runCount: nat, before: int, excluded: set<nat>, at: int): (r: seq<Artifact>)
    ensures |r| == |artifacts|
  {
    seq(|artifacts|, i requires 0 <= i < |artifacts| =>
      if Requeues(artifacts[i], i, runs, name, version, runCount, before, excluded) then RequeueOne(artifacts[i], at)
      else artifacts[i])
  }

  /** Is replaced when artifact winner becomes ready under the given key. */
  predicate Supersedes(artifacts: seq<Artifact>, key: Key, winner: nat, i: nat) {
    i < |artifacts| && i != winner && KeyOf(artifacts[i]) == key && artifacts[i].status == Ready
  }

  function SupersedeOne(a: Artifact, winner: nat, at: int): Artifact {
    a.(status := Superseded, supersededBy := Some(winner), supersededAt := Some(at), updatedAt := at)
  }

  function SupersedeOthers(artifacts: seq<Artifact>, key: Key, winner: nat, at: int): (r: seq<Artifact>)
    ensures |r| == |artifacts|
  {
    seq(|artifacts|, i requires 0 <= i < |artifacts| =>
      if Supersedes(artifacts, key, winner, i) then SupersedeOne(artifacts[i], winner, at) else artifacts[i])
  }

  function ReadyOne(a: Artifact, output: Payload, at: int): Artifact {
    a.(status := Ready, output := Some(output), rejection := None, error := None, readyAt := Some(at), updatedAt := at)
  }

  function MarkReady(artifacts: seq<Artifact>, key: Key, winner: nat, output: Payload, at: int): (r: seq<Artifact>)
    requires winner < |artifacts|
    ensures |r| == |artifacts|
  {
    SupersedeOthers(artifacts, key, winner, at)[winner := ReadyOne(artifacts[winner], output, at)]
  }

  function RejectedOne(a: Artifact, rejection: Payload, at: int): Artifact {
    a.(status := Rejected, rejection := Some(rejection), error := None, updatedAt := at)
  }

  function FailedOne(a: Artifact, error: Payload, at: int): Artifact {
    a.(status := Failed, error := Some(error), updatedAt := at)
  }

  function PhasedOne(a: Artifact, phase: (string, string), at: int): Artifact {
    if a.phase == Some(phase) then a else a.(phase := Some(phase), phaseAt := Some(at), updatedAt := at)
  }

  predicate Dumps(artifacts: seq<Artifact>, key: Key, i: nat) {
    i < |artifacts| && KeyOf(artifacts[i]) == key && artifacts[i].status == Ready
  }

  function DumpOne(a: Artifact, at: int): Artifact {
    a.(status := Superseded, supersededAt := Some(at), updatedAt := at)
  }

  function Dump(artifacts: seq<Artifact>, key: Key, at: int): (r: seq<Artifact>)
    ensures |r| == |artifacts|
  {
    seq(|artifacts|, i requires 0 <= i < |artifacts| =>
      if Dumps(artifacts, key, i) then DumpOne(artifacts[i], at) else artifacts[i])
  }

  // ---------------------------------------------------------------- sorting a selection

  function InsertByAge(artifacts: seq<Artifact>, i: nat, rest: seq<nat>): (sorted: seq<nat>)
    requires i < |artifacts| && forall k :: 0 <= k < |rest| ==> rest[k] < |artifacts|
    ensures forall k :: 0 <= k < |sorted| ==> sorted[k] < |artifacts|
  {
    if rest == [] || !Older(artifacts[rest[0]], artifacts[i]) then [i] + rest
    else [rest[0]] + InsertByAge(artifacts, i, rest[1..])
  }

  /** A stable sort by `Older`. */
  function SortByAge(artifacts: seq<Artifact>, picked: seq<nat>): (sorted: seq<nat>)
    requires forall k :: 0 <= k < |picked| ==> picked[k] < |artifacts|
    ensures forall k :: 0 <= k < |sorted| ==> sorted[k] < |artifacts|
  {
    if picked == [] then [] else InsertByAge(artifacts, picked[0], SortByAge(artifacts, picked[1..]))
  }

  lemma {:induction false} SortedElements(artifacts: seq<Artifact>, picked: seq<nat>)
    requires forall k :: 0 <= k < |picked| ==> picked[k] < |artifacts|
    ensures Elements(SortByAge(artifacts, picked)) == Elements(picked)
  {
    if picked == [] {
    } else {
      SortedElements(artifacts, picked[1..]);
      InsertedElements(artifacts, picked[0], SortByAge(artifacts, picked[1..]));
      assert picked == [picked[0]] + picked[1..];
      assert Elements(picked) == {picked[0]} + Elements(picked[1..]);
    }
  }

  lemma {:induction false} InsertedElements(artifacts: seq<Artifact>, i: nat, rest: seq<nat>)
    requires i < |artifacts| && forall k :: 0 <= k < |rest| ==> rest[k] < |artifacts|
    ensures Elements(InsertByAge(artifacts, i, rest)) == {i} + Elements(rest)
  {
    if rest != [] {
      assert rest == [rest[0]] + rest[1..];
      InsertedElements(artifacts, i, rest[1..]);
      var inserted := InsertByAge(artifacts, i, rest[1..]);
      assert Elements([rest[0]] + inserted) == {rest[0]} + Elements(inserted);
      assert Elements([i] + rest) == {i} + Elements(rest);
      assert Elements(rest) == {rest[0]} + Elements(rest[1..]);
    } else {
      assert Elements([i]) == {i} + Elements(rest);
    }
  }

  ghost predicate SortedByAge(artifacts: seq<Artifact>, order: seq<nat>) {
    && (forall k :: 0 <= k < |order| ==> order[k] < |artifacts|)
    && forall k, l :: 0 <= k < l < |order| ==> Ahead(artifacts, order[k], order[l])
  }

  lemma {:induction false} InsertKeepsOrder(artifacts: seq<Artifact>, i: nat, rest: seq<nat>)
    requires i < |artifacts| && SortedByAge(artifacts, rest)
    requires forall k :: 0 <= k < |rest| ==> i < rest[k]
    ensures SortedByAge(artifacts, InsertByAge(artifacts, i, rest))
  {
    if rest != [] && Older(artifacts[rest[0]], artifacts[i]) {
      InsertKeepsOrder(artifacts, i, rest[1..]);
      InsertedElements(artifacts, i, rest[1..]);
      var inserted := InsertByAge(artifacts, i, rest[1..]);
      assert Ahead(artifacts, rest[0], i);
      hide Older;
      forall l | 0 <= l < |inserted| ensures Ahead(artifacts, rest[0], inserted[l]) {
        assert inserted[l] in Elements(inserted);
        if inserted[l] != i {
          var m :| 0 <= m < |rest[1..]| && rest[1..][m] == inserted[l];
          assert rest[m + 1] == inserted[l];
        }
      }
      SortedPush(artifacts, rest[0], inserted);
    } else {
      forall l | 0 <= l < |rest| ensures Ahead(artifacts, i, rest[l]) {
        assert l > 0 ==> Ahead(artifacts, rest[0], rest[l]);
      }
      SortedPush(artifacts, i, rest);
    }
  }

  lemma SortedPush(artifacts: seq<Artifact>, i: nat, rest: seq<nat>)
    requires i < |artifacts| && SortedByAge(artifacts, rest)
    requires forall l :: 0 <= l < |rest| ==> Ahead(artifacts, i, rest[l])
    ensures SortedByAge(artifacts, [i] + rest)
  {
    hide Ahead;
  }

  /** Sorting ascending positions puts each one's rank at its index. */
  lemma {:induction false} SortByAgeSorts(artifacts: seq<Artifact>, picked: seq<nat>)
    requires forall k :: 0 <= k < |picked| ==> picked[k] < |artifacts|
    requires forall k, l :: 0 <= k < l < |picked| ==> picked[k] < picked[l]
    ensures SortedByAge(artifacts, SortByAge(artifacts, picked))
  {
    if picked == [] {
    } else {
      SortByAgeSorts(artifacts, picked[1..]);
      var rest := SortByAge(artifacts, picked[1..]);
      forall k | 0 <= k < |rest| ensures picked[0] < rest[k] {
        SortedElements(artifacts, picked[1..]);
        assert rest[k] in Elements(rest);
        var m :| 0 <= m < |picked[1..]| && picked[1..][m] == rest[k];
      }
      InsertKeepsOrder(artifacts, picked[0], rest);
    }
  }

  lemma AheadIsStrict(artifacts: seq<Artifact>, i: nat, j: nat)
    requires i < |artifacts| && j < |artifacts| && Ahead(artifacts, i, j)
    ensures i != j && !Ahead(artifacts, j, i)
  {
  }

  /** In a full sorted listing of the waiting artifacts, the k-th has exactly k ahead of it. */
  lemma RankIsIndex(artifacts: seq<Artifact>, name: string, version: string, order: seq<nat>, k: nat)
    requires SortedByAge(artifacts, order) && k < |order|
    requires forall i: nat :: i in order <==> Waiting(artifacts, name, version, i)
    ensures |WaitingAhead(artifacts, name, version, order[k])| == k
  {
    var ahead := WaitingAhead(artifacts, name, version, order[k]);
    forall i ensures i in ahead <==> i in Elements(order[..k]) {
      if i in ahead {
        assert i in order;
        var m :| 0 <= m < |order| && order[m] == i;
        if m > k { AheadIsStrict(artifacts, order[k], order[m]); }
        if m < k { assert order[..k][m] == i; }
      }
      if i in order[..k] {
        var m :| 0 <= m < k && order[..k][m] == i;
        assert order[m] == i && Ahead(artifacts, order[m], order[k]);
        assert i in order;
      }
    }
    assert Distinct(order[..k]) by {
      forall a, b | 0 <= a < b < k ensures order[a] != order[b] { AheadIsStrict(artifacts, order[a], order[b]); }
    }
    DistinctCount(order[..k]);
    assert ahead == Elements(order[..k]);
  }

  /** The first limit entries of that listing are exactly the claim. */
  lemma PrefixIsClaim(artifacts: seq<Artifact>, name: string, version: string, order: seq<nat>, limit: int, claimed: seq<nat>)
    requires SortedByAge(artifacts, order) && limit >= 1
    requires forall i: nat :: i in order <==> Waiting(artifacts, name, version, i)
    requires claimed == if limit < |order| then order[..limit] else order
    ensures SortedByAge(artifacts, claimed) && Distinct(claimed) && |claimed| <= limit
    ensures forall i: nat :: i in claimed <==> Claims(artifacts, name, version, limit, i)
  {
    hide WaitingAhead, Waiting, Ahead;
    forall k | 0 <= k < |order| ensures Claims(artifacts, name, version, limit, order[k]) <==> k < limit {
      RankIsIndex(artifacts, name, version, order, k);
      assert order[k] in order;
    }
    SortedDiffer(artifacts, order);
    hide SortedByAge, Claims;
    forall i: nat ensures i in claimed <==> Claims(artifacts, name, version, limit, i) {
      if i in claimed {
        var k :| 0 <= k < |claimed| && claimed[k] == i;
        assert order[k] == i;
      }
      if Claims(artifacts, name, version, limit, i) {
        ClaimsWait(artifacts, name, version, limit, i);
        assert i in order;
        var k :| 0 <= k < |order| && order[k] == i;
        assert claimed[k] == i;
      }
    }
    PrefixIsSorted(artifacts, order, claimed);
  }

  lemma SortedDiffer(artifacts: seq<Artifact>, order: seq<nat>)
    requires SortedByAge(artifacts, order)
    ensures Distinct(order)
  {
    forall a, b | 0 <= a < b < |order| ensures order[a] != order[b] {
      AheadIsStrict(artifacts, order[a], order[b]);
    }
  }

  lemma ClaimsWait(artifacts: seq<Artifact>, name: string, version: string, limit: int, i: nat)
    requires Claims(artifacts, name, version, limit, i)
    ensures Waiting(artifacts, name, version, i)
  {}

  lemma PrefixIsSorted(artifacts: seq<Artifact>, order: seq<nat>, claimed: seq<nat>)
    requires SortedByAge(artifacts, order) && claimed <= order
    ensures SortedByAge(artifacts, claimed)
  {
    hide Ahead;
  }

  /** Last updated before, or created before, or listed before. */
  predicate OlderOrFirst(artifacts: seq<Artifact>, i: nat, j: nat) {
    && i < |artifacts| && j < |artifacts|
    && var (a, b) := (artifacts[i], artifacts[j]);
       || a.updatedAt < b.updatedAt
       || (a.updatedAt == b.updatedAt && (a.createdAt < b.createdAt || (a.createdAt == b.createdAt && i < j)))
  }

  predicate IsPending(artifacts: seq<Artifact>, name: string, version: string, i: nat) {
    && i < |artifacts| && artifacts[i].status == Pending
    && artifacts[i].blockName == name && artifacts[i].blockVersion == version
  }

  lemma PrefixIsOldest(artifacts: seq<Artifact>, name: string, version: string, order: seq<nat>, limit: int, claimed: seq<nat>)
    requires SortedByAge(artifacts, order) && limit >= 1
    requires forall i: nat :: i in order <==> Waiting(artifacts, name, version, i)
    requires claimed == if limit < |order| then order[..limit] else order
    ensures forall k: nat, l: nat :: k < l < |claimed| ==> OlderOrFirst(artifacts, claimed[k], claimed[l])
    ensures forall i: nat, j: nat :: i in claimed && j !in claimed && IsPending(artifacts, name, version, j) ==>
      OlderOrFirst(artifacts, i, j)
    ensures forall i: nat :: i in claimed ==> IsPending(artifacts, name, version, i)
    ensures |claimed| < limit ==> forall j: nat :: IsPending(artifacts, name, version, j) ==> j in claimed
  {
    forall i: nat ensures Waiting(artifacts, name, version, i) <==> IsPending(artifacts, name, version, i) {}
    forall k: nat, l: nat | k < l < |order| ensures OlderOrFirst(artifacts, order[k], order[l]) {
      assert Ahead(artifacts, order[k], order[l]);
    }
    hide Ahead, Waiting, IsPending, OlderOrFirst, SortedByAge;
    forall i: nat, j: nat | i in claimed && j !in claimed && IsPending(artifacts, name, version, j)
      ensures OlderOrFirst(artifacts, i, j)
    {
      var k :| 0 <= k < |claimed| && claimed[k] == i;
      var l :| 0 <= l < |order| && order[l] == j;
      assert order[k] == i;
      assert forall m :: 0 <= m < |claimed| ==> claimed[m] == order[m];
    }
    forall i: nat | i in claimed ensures IsPending(artifacts, name, version, i) {
      var k :| 0 <= k < |claimed| && claimed[k] == i;
      assert order[k] == i;
      assert i in order;
    }
  }

  lemma NothingToClaim(artifacts: seq<Artifact>, name: string, version: string, limit: int, at: int)
    requires limit < 1
    ensures Claim(artifacts, name, version, limit, at) == artifacts && SortedByAge(artifacts, [])
    ensures forall i: nat :: !Claims(artifacts, name, version, limit, i)
  {
  }

  // ---------------------------------------------------------------- the store

  /** What a store call gives its caller: a value, or an exception. */
  datatype Outcome<+T> = Threw | Returned(value: T)

  /** Closing keeps whose run it is and when it started. */
  predicate IsClosed(before: Run, after: Run, status: RunStatus, at: int) {
    && after.artifactId == before.artifactId && after.startedAt == before.startedAt
    && after.status == status && after.closing.finishedAt == Some(at)
  }

  /** Each id once, in the order the records were created. */
  ghost predicate Ascending(ids: seq<nat>) {
    forall k, l :: 0 <= k < l < |ids| ==> ids[k] < ids[l]
  }

  class MemoryStore {
    var artifacts: seq<Artifact>
    var runs: seq<Run>
    var phases: seq<PhaseUpdate>

    constructor ()
      ensures artifacts == [] && runs == [] && phases == []
    {
      artifacts, runs, phases := [], [], [];
    }

    method CreateArtifact(key: Key, createdAt: int) returns (r: Outcome<nat>)
      modifies `artifacts
      ensures key.identity == "" ==> r.Threw? && artifacts == old(artifacts)
      ensures key.identity != "" ==>
        && r == Returned(|old(artifacts)|)
        && artifacts == old(artifacts) + [Artifact(key.blockName, key.blockVersion, key.identity, Pending,
             None, None, None, None, None, createdAt, createdAt, None, None, None)]
        && artifacts == old(artifacts) + [NewArtifact(key, createdAt)]
    {
      if key.identity == "" {
        return Threw;
      }
      r := Returned(|artifacts|);
      artifacts := artifacts + [NewArtifact(key, createdAt)];
    }

    method FindArtifactById(id: nat) returns (r: Option<Artifact>)
      ensures r.Some? <==> id < |artifacts|
      ensures r.Some? ==> r.value == artifacts[id]
    {
      for i := 0 to |artifacts|
        invariant i <= id
      {
        if i == id {
          return Some(artifacts[i]);
        }
      }
      r := None;
    }

    /** The first ready artifact of the key, if any. */
    method FindActiveArtifact(key: Key) returns (r: Outcome<Option<nat>>)
      ensures r.Threw? <==> key.identity == ""
      ensures r.Returned? && r.value.Some? ==>
        var f := r.value.value;
        && f < |artifacts| && KeyOf(artifacts[f]) == key && artifacts[f].status == Ready
        && forall i :: 0 <= i < f && KeyOf(artifacts[i]) == key ==> artifacts[i].status != Ready
      ensures r.Returned? && r.value.None? ==>
        forall i :: 0 <= i < |artifacts| && KeyOf(artifacts[i]) == key ==> artifacts[i].status != Ready
    {
      if key.identity == "" {
        return Threw;
      }
      for i := 0 to |artifacts|
        invariant forall k :: 0 <= k < i && KeyOf(artifacts[k]) == key ==> artifacts[k].status != Ready
      {
        if KeyOf(artifacts[i]) == key && artifacts[i].status == Ready {
          return Returned(Some(i));
        }
      }
      r := Returned(None);
    }

    /** The most recently created artifact of the key that is not superseded; the first of equals. */
    method FindLatestNonSuperseded(key: Key) returns (r: Outcome<Option<nat>>)
      ensures r.Threw? <==> key.identity == ""
      ensures r.Returned? && r.value.None? ==>
        forall i :: 0 <= i < |artifacts| && KeyOf(artifacts[i]) == key ==> artifacts[i].status == Superseded
      ensures r.Returned? && r.value.Some? ==>
        var l := r.value.value;
        && l < |artifacts| && KeyOf(artifacts[l]) == key && artifacts[l].status != Superseded
        && forall i :: 0 <= i < |artifacts| && KeyOf(artifacts[i]) == key && artifacts[i].status != Superseded ==>
             artifacts[i].createdAt < artifacts[l].createdAt || (artifacts[i].createdAt == artifacts[l].createdAt && l <= i)
    {
      if key.identity == "" {
        return Threw;
      }
      var latest: Option<nat> := None;
      for i := 0 to |artifacts|
        invariant latest.None? ==>
          forall k :: 0 <= k < i && KeyOf(artifacts[k]) == key ==> artifacts[k].status == Superseded
        invariant latest.Some? ==>
          var l := latest.value;
          && l < i && KeyOf(artifacts[l]) == key && artifacts[l].status != Superseded
          && forall k :: 0 <= k < i && KeyOf(artifacts[k]) == key && artifacts[k].status != Superseded ==>
               artifacts[k].createdAt < artifacts[l].createdAt || (artifacts[k].createdAt == artifacts[l].createdAt && l <= k)
      {
        if KeyOf(artifacts[i]) == key && artifacts[i].status != Superseded {
          if latest.None? || artifacts[latest.value].createdAt < artifacts[i].createdAt {
            latest := Some(i);
          }
        }
      }
      r := Returned(latest);
    }

    /** Takes the limit least recently updated waiting artifacts, oldest first. */
    method ClaimPendingArtifacts(name: string, version: string, limit: int, claimedAt: int) returns (claimed: seq<nat>)
      modifies `artifacts
      ensures artifacts == Claim(old(artifacts), name, version, limit, claimedAt)
      ensures SortedByAge(old(artifacts), claimed) && |claimed| <= (if limit < 0 then 0 else limit)
      ensures forall i: nat :: i in claimed <==> Claims(old(artifacts), name, version, limit, i)
      ensures forall k: nat, l: nat :: k < l < |claimed| ==> OlderOrFirst(old(artifacts), claimed[k], claimed[l])
      ensures forall i: nat, j: nat :: i in claimed && j !in claimed && IsPending(old(artifacts), name, version, j) ==>
        OlderOrFirst(old(artifacts), i, j)
      ensures forall i: nat :: i in claimed ==> IsPending(old(artifacts), name, version, i)
      ensures |claimed| < limit ==> forall j: nat :: IsPending(old(artifacts), name, version, j) ==> j in claimed
      ensures |artifacts| == |old(artifacts)| && forall i: nat :: i < |artifacts| ==>
        artifacts[i] ==
          if i in claimed then old(artifacts)[i].(status := Running, updatedAt := claimedAt, error := None)
          else old(artifacts)[i]
    {
      hide Claims, Waiting, SortedByAge, OlderOrFirst, IsPending, Ahead;
      if limit < 1 {
        NothingToClaim(artifacts, name, version, limit, claimedAt);
        return [];
      }
      ghost var before := artifacts;
      var order := OldestFirst(name, version);
      claimed := if limit < |order| then order[..limit] else order;
      PrefixIsClaim(before, name, version, order, limit, claimed);
      PrefixIsOldest(before, name, version, order, limit, claimed);
      for k := 0 to |claimed|
        invariant |artifacts| == |before|
        invariant forall i :: 0 <= i < |before| ==>
          artifacts[i] == if i in claimed[..k] then ClaimOne(before[i], claimedAt) else before[i]
      {
        var i := claimed[k];
        assert claimed[..k + 1] == claimed[..k] + [i];
        artifacts := artifacts[i := ClaimOne(artifacts[i], claimedAt)];
      }
      assert claimed[..|claimed|] == claimed;
    }

    method OldestFirst(name: string, version: string) returns (order: seq<nat>)
      ensures SortedByAge(artifacts, order)
      ensures forall i: nat :: i in order <==> Waiting(artifacts, name, version, i)
    {
      var picked := SelectWaiting(name, version);
      order := SortByAge(artifacts, picked);
      SortByAgeSorts(artifacts, picked);
      SortedElements(artifacts, picked);
      forall i: nat ensures i in order <==> Waiting(artifacts, name, version, i) {
        assert i in order <==> i in Elements(order);
        assert i in picked <==> i in Elements(picked);
      }
    }

    method SelectWaiting(name: string, version: string) returns (picked: seq<nat>)
      ensures Ascending(picked)
      ensures forall k :: 0 <= k < |picked| ==> picked[k] < |artifacts|
      ensures forall i: nat :: i in picked <==> Waiting(artifacts, name, version, i)
    {
      picked := [];
      for i := 0 to |artifacts|
        invariant Ascending(picked)
        invariant forall k :: 0 <= k < |picked| ==> picked[k] < i
        invariant forall k: nat :: k in picked <==> k < i && Waiting(artifacts, name, version, k)
      {
        if OfBlock(artifacts[i], name, version) && artifacts[i].status == Pending {
          picked := picked + [i];
        }
      }
    }

    /** Puts failed artifacts with exactly runCount runs back in the queue. The order in which
        the source visits them decides nothing: each record is written once, independently. */
    method RequeueRetryable(name: string, version: string, runCount: nat, before: int, excluded: set<nat>, requeuedAt: int)
      returns (requeued: nat, ghost moved: set<nat>)
      modifies `artifacts
      ensures artifacts == Requeue(old(artifacts), runs, name, version, runCount, before, excluded, requeuedAt)
      ensures requeued == |moved| && forall i: nat :: i in moved <==>
        && i < |old(artifacts)| && old(artifacts)[i].blockName == name && old(artifacts)[i].blockVersion == version
        && old(artifacts)[i].status == Failed && i !in excluded && old(artifacts)[i].updatedAt <= before
        && CountRuns(runs, i) == runCount
      ensures |artifacts| == |old(artifacts)| && forall i: nat :: i < |artifacts| ==>
        artifacts[i] ==
          if i in moved then old(artifacts)[i].(status := Pending, updatedAt := requeuedAt, error := None)
          else old(artifacts)[i]
    {
      ghost var was := artifacts;
      requeued, moved := 0, {};
      for i := 0 to |artifacts|
        invariant |artifacts| == |was|
        invariant forall k :: i <= k < |was| ==> artifacts[k] == was[k]
        invariant forall k :: 0 <= k < i ==>
          artifacts[k] ==
            if Requeues(was[k], k, runs, name, version, runCount, before, excluded) then RequeueOne(was[k], requeuedAt)
            else was[k]
        invariant forall k: nat :: k in moved <==> k < i && Requeues(was[k], k, runs, name, version, runCount, before, excluded)
        invariant requeued == |moved|
      {
        if Requeues(artifacts[i], i, runs, name, version, runCount, before, excluded) {
          artifacts := artifacts[i := RequeueOne(artifacts[i], requeuedAt)];
          moved := moved + {i};
          requeued := requeued + 1;
        }
      }
    }

    /** Supersedes every other ready artifact of the key before looking the winner up, so an
        unknown winner still supersedes them and then throws. */
    method MarkArtifactReady(winner: nat, key: Key, output: Payload, readyAt: int) returns (r: Outcome<seq<nat>>)
      modifies `artifacts
      ensures key.identity == "" ==> r.Threw? && artifacts == old(artifacts)
      ensures key.identity != "" && winner >= |old(artifacts)| ==>
        r.Threw? && artifacts == SupersedeOthers(old(artifacts), key, winner, readyAt)
      ensures key.identity != "" && winner < |old(artifacts)| ==>
        && artifacts == MarkReady(old(artifacts), key, winner, output, readyAt)
        && r.Returned? && Ascending(r.value)
        && forall i: nat :: i in r.value <==> Supersedes(old(artifacts), key, winner, i)
      ensures r.Returned? ==> winner < |artifacts| == |old(artifacts)| && forall i: nat :: i < |artifacts| ==>
        && (i in r.value <==> i != winner && KeyOf(old(artifacts)[i]) == key && old(artifacts)[i].status == Ready)
        && artifacts[i] ==
             if i == winner then
               old(artifacts)[i].(status := Ready, output := Some(output), rejection := None, error := None,
                 readyAt := Some(readyAt), updatedAt := readyAt)
             else if i in r.value then
               old(artifacts)[i].(status := Superseded, supersededBy := Some(winner), supersededAt := Some(readyAt),
                 updatedAt := readyAt)
             else old(artifacts)[i]
    {
      if key.identity == "" {
        return Threw;
      }
      ghost var was := artifacts;
      var superseded: seq<nat> := [];
      for i := 0 to |artifacts|
        invariant |artifacts| == |was|
        invariant forall k :: 0 <= k < |was| ==>
          artifacts[k] == if k < i && Supersedes(was, key, winner, k) then SupersedeOne(was[k], winner, readyAt) else was[k]
        invariant Ascending(superseded) && forall m :: 0 <= m < |superseded| ==> superseded[m] < i
        invariant forall k: nat :: k in superseded <==> k < i && Supersedes(was, key, winner, k)
      {
        if i != winner && KeyOf(artifacts[i]) == key && artifacts[i].status == Ready {
          artifacts := artifacts[i := SupersedeOne(artifacts[i], winner, readyAt)];
          superseded := superseded + [i];
        }
      }
      assert artifacts == SupersedeOthers(was, key, winner, readyAt);
      if winner >= |artifacts| {
        return Threw;
      }
      artifacts := artifacts[winner := ReadyOne(artifacts[winner], output, readyAt)];
      r := Returned(superseded);
    }

    method MarkArtifactRejected(id: nat, rejection: Payload, at: int) returns (r: Outcome<()>)
      modifies `artifacts
      ensures id >= |old(artifacts)| ==> r.Threw? && artifacts == old(artifacts)
      ensures id < |old(artifacts)| ==>
        && r.Returned? && artifacts == old(artifacts)[id := RejectedOne(old(artifacts)[id], rejection, at)]
        && artifacts[id] == old(artifacts)[id].(status := Rejected, rejection := Some(rejection), error := None, updatedAt := at)
    {
      if id >= |artifacts| {
        return Threw;
      }
      artifacts := artifacts[id := RejectedOne(artifacts[id], rejection, at)];
      r := Returned(());
    }

    method MarkArtifactFailed(id: nat, error: Payload, at: int) returns (r: Outcome<()>)
      modifies `artifacts
      ensures id >= |old(artifacts)| ==> r.Threw? && artifacts == old(artifacts)
      ensures id < |old(artifacts)| ==>
        && r.Returned? && artifacts == old(artifacts)[id := FailedOne(old(artifacts)[id], error, at)]
        && artifacts[id] == old(artifacts)[id].(status := Failed, error := Some(error), updatedAt := at)
    {
      if id >= |artifacts| {
        return Threw;
      }
      artifacts := artifacts[id := FailedOne(artifacts[id], error, at)];
      r := Returned(());
    }

    /** A phase already shown is neither written nor logged again. */
    method UpdateArtifactPhase(id: nat, phase: (string, string), at: int) returns (r: Outcome<()>)
      modifies `artifacts, `phases
      ensures id >= |old(artifacts)| ==> r.Threw? && artifacts == old(artifacts) && phases == old(phases)
      ensures id < |old(artifacts)| ==>
        && r.Returned? && artifacts == old(artifacts)[id := PhasedOne(old(artifacts)[id], phase, at)]
        && artifacts[id] ==
             (if old(artifacts)[id].phase == Some(phase) then old(artifacts)[id]
              else old(artifacts)[id].(phase := Some(phase), phaseAt := Some(at), updatedAt := at))
        && phases == old(phases) +
             (if old(artifacts)[id].phase == Some(phase) then [] else [PhaseUpdate(id, phase, at)])
    {
      if id >= |artifacts| {
        return Threw;
      }
      r := Returned(());
      if artifacts[id].phase == Some(phase) {
        return;
      }
      phases := phases + [PhaseUpdate(id, phase, at)];
      artifacts := artifacts[id := artifacts[id].(phase := Some(phase), phaseAt := Some(at), updatedAt := at)];
    }

    method DumpArtifacts(key: Key, dumpedAt: int) returns (r: Outcome<seq<nat>>)
      modifies `artifacts
      ensures key.identity == "" ==> r.Threw? && artifacts == old(artifacts)
      ensures key.identity != "" ==>
        && artifacts == Dump(old(artifacts), key, dumpedAt)
        && r.Returned? && Ascending(r.value)
        && forall i: nat :: i in r.value <==> Dumps(old(artifacts), key, i)
      ensures r.Returned? ==> |artifacts| == |old(artifacts)| && forall i: nat :: i < |artifacts| ==>
        && (i in r.value <==> KeyOf(old(artifacts)[i]) == key && old(artifacts)[i].status == Ready)
        && artifacts[i] ==
             if i in r.value then
               old(artifacts)[i].(status := Superseded, supersededAt := Some(dumpedAt), updatedAt := dumpedAt)
             else old(artifacts)[i]
    {
      if key.identity == "" {
        return Threw;
      }
      ghost var was := artifacts;
      var dumped: seq<nat> := [];
      for i := 0 to |artifacts|
        invariant |artifacts| == |was|
        invariant forall k :: 0 <= k < |was| ==>
          artifacts[k] == if k < i && Dumps(was, key, k) then DumpOne(was[k], dumpedAt) else was[k]
        invariant Ascending(dumped) && forall m :: 0 <= m < |dumped| ==> dumped[m] < i
        invariant forall k: nat :: k in dumped <==> k < i && Dumps(was, key, k)
      {
        if KeyOf(artifacts[i]) == key && artifacts[i].status == Ready {
          artifacts := artifacts[i := DumpOne(artifacts[i], dumpedAt)];
          dumped := dumped + [i];
        }
      }
      r := Returned(dumped);
    }

    method StartRun(artifactId: nat, startedAt: int) returns (runId: nat)
      modifies `runs
      ensures runId == |old(runs)| && runs == old(runs) + [Run(artifactId, startedAt, RunRunning, OPEN)]
      ensures CountRuns(runs, artifactId) == CountRuns(old(runs), artifactId) + 1
    {
      runId := |runs|;
      runs := runs + [Run(artifactId, startedAt, RunRunning, OPEN)];
      assert runs[..|runs| - 1] == old(runs);
    }

    method FinishRun(runId: nat, finish: Payload, finishedAt: int) returns (r: Outcome<()>)
      modifies `runs
      ensures runId >= |old(runs)| ==> r.Threw? && runs == old(runs)
      ensures runId < |old(runs)| ==>
        && r.Returned? && |runs| == |old(runs)|
        && (forall k :: 0 <= k < |runs| && k != runId ==> runs[k] == old(runs)[k])
        && IsClosed(old(runs)[runId], runs[runId], RunSuccess, finishedAt)
        && runs[runId].closing == old(runs)[runId].closing.(finishedAt := Some(finishedAt), finish := Some(finish))
    {
      if runId >= |runs| {
        return Threw;
      }
      var run := runs[runId];
      var closing := run.closing.(finishedAt := Some(finishedAt), finish := Some(finish));
      runs := runs[runId := run.(status := RunSuccess, closing := closing)];
      r := Returned(());
    }

    method RejectRun(runId: nat, reason: string, rejection: Payload, finishedAt: int) returns (r: Outcome<()>)
      modifies `runs
      ensures runId >= |old(runs)| ==> r.Threw? && runs == old(runs)
      ensures runId < |old(runs)| ==>
        && r.Returned? && |runs| == |old(runs)|
        && (forall k :: 0 <= k < |runs| && k != runId ==> runs[k] == old(runs)[k])
        && IsClosed(old(runs)[runId], runs[runId], RunRejected, finishedAt)
        && runs[runId].closing == old(runs)[runId].closing.(finishedAt := Some(finishedAt), rejection := Some((reason, rejection)))
    {
      if runId >= |runs| {
        return Threw;
      }
      var run := runs[runId];
      var closing := run.closing.(finishedAt := Some(finishedAt), rejection := Some((reason, rejection)));
      runs := runs[runId := run.(status := RunRejected, closing := closing)];
      r := Returned(());
    }

    method FailRun(runId: nat, error: Payload, finishedAt: int) returns (r: Outcome<()>)
      modifies `runs
      ensures runId >= |old(runs)| ==> r.Threw? && runs == old(runs)
      ensures runId < |old(runs)| ==>
        && r.Returned? && |runs| == |old(runs)|
        && (forall k :: 0 <= k < |runs| && k != runId ==> runs[k] == old(runs)[k])
        && IsClosed(old(runs)[runId], runs[runId], RunFailed, finishedAt)
        && runs[runId].closing == old(runs)[runId].closing.(finishedAt := Some(finishedAt), error := Some(error))
    {
      if runId >= |runs| {
        return Threw;
      }
      var run := runs[runId];
      var closing := run.closing.(finishedAt := Some(finishedAt), error := Some(error));
      runs := runs[runId := run.(status := RunFailed, closing := closing)];
      r := Returned(());
    }

    method CountArtifactRuns(artifactId: nat) returns (n: nat)
      ensures n == CountRuns(runs, artifactId)
    {
      n := 0;
      for i := 0 to |runs|
        invariant n == CountRuns(runs[..i], artifactId)
      {
        assert runs[..i + 1][..i] == runs[..i];
        if runs[i].artifactId == artifactId { n := n + 1; }
      }
      assert runs[..|runs|] == runs;
    }
  }
}
