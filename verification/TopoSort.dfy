/** bridge/cmd/gen-wire: ordering generated structs so that a dependency precedes its users. */
module TopoSort {
  import opened Common

  datatype StructInfo = StructInfo(name: string, embedded: seq<string>, deps: seq<string>)

  /** Name to position; the last struct of a name wins. */
  function Index(structs: seq<StructInfo>): (idx: map<string, nat>)
    ensures forall k :: k in idx ==> idx[k] < |structs|
  {
    if structs == [] then map[]
    else
      var last := |structs| - 1;
      Index(structs[..last])[structs[last].name := last]
  }

  /** Every struct is found under its name, the last of a name being the one found. */
  lemma {:induction false} IndexIsLast(structs: seq<StructInfo>, name: string)
    ensures name in Index(structs) <==> exists i :: 0 <= i < |structs| && structs[i].name == name
    ensures name in Index(structs) ==>
      var i := Index(structs)[name];
      structs[i].name == name && forall l :: i < l < |structs| ==> structs[l].name != name
  {
    if structs != [] {
      var last := |structs| - 1;
      IndexIsLast(structs[..last], name);
      if name in Index(structs[..last]) { assert structs[..last][Index(structs[..last])[name]].name == name; }
      assert forall i :: 0 <= i < last ==> structs[..last][i] == structs[i];
      assert structs[last].name == name ==> name in Index(structs);
    }
  }

  /** The struct at i embeds the one at j or has a field of its type. */
  ghost predicate Edge(structs: seq<StructInfo>, i: nat, j: nat)
    requires i < |structs|
  {
    exists name :: (name in structs[i].embedded || name in structs[i].deps) && IndexedAs(structs, name, j)
  }

  ghost predicate IndexedAs(structs: seq<StructInfo>, name: string, j: nat) {
    name in Index(structs) && Index(structs)[name] == j
  }

  ghost predicate IsPath(structs: seq<StructInfo>, p: seq<nat>) {
    && p != [] && (forall k :: 0 <= k < |p| ==> p[k] < |structs|)
    && forall k :: 0 <= k < |p| - 1 ==> Edge(structs, p[k], p[k + 1])
  }

  ghost predicate Reaches(structs: seq<StructInfo>, i: nat, j: nat) {
    exists p :: IsPath(structs, p) && p[0] == i && p[|p| - 1] == j
  }

  ghost predicate Acyclic(structs: seq<StructInfo>) {
    forall i: nat, j: nat :: i < |structs| && Edge(structs, i, j) ==> !Reaches(structs, j, i)
  }

  lemma ReachesSelf(structs: seq<StructInfo>, i: nat)
    requires i < |structs|
    ensures Reaches(structs, i, i)
  {
    assert IsPath(structs, [i]);
  }

  lemma ReachesStep(structs: seq<StructInfo>, s: nat, i: nat, j: nat)
    requires i < |structs| && j < |structs| && Reaches(structs, s, i) && Edge(structs, i, j)
    ensures Reaches(structs, s, j)
  {
    var p :| IsPath(structs, p) && p[0] == s && p[|p| - 1] == i;
    var q := p + [j];
    forall k | 0 <= k < |q| - 1 ensures Edge(structs, q[k], q[k + 1]) {
      if k < |p| - 1 { assert Edge(structs, p[k], p[k + 1]); }
    }
    assert IsPath(structs, q);
  }

  lemma ReachesFrom(structs: seq<StructInfo>, i: nat, j: nat, t: nat)
    requires i < |structs| && Edge(structs, i, j) && Reaches(structs, j, t)
    ensures Reaches(structs, i, t)
  {
    var p :| IsPath(structs, p) && p[0] == j && p[|p| - 1] == t;
    var q := [i] + p;
    forall k | 0 <= k < |q| - 1 ensures Edge(structs, q[k], q[k + 1]) {
      if k > 0 { assert Edge(structs, p[k - 1], p[k]); }
    }
    assert IsPath(structs, q);
  }

  /** order lists every position once. */
  ghost predicate IsPermutation(order: seq<nat>, n: nat) {
    && |order| == n
    && (forall k :: 0 <= k < n ==> order[k] < n)
    && Distinct(order)
  }

  /** A dependency precedes its user, except where the user is itself needed by the dependency. */
  ghost predicate WellPlaced(structs: seq<StructInfo>, order: seq<nat>)
    requires forall k :: 0 <= k < |order| ==> order[k] < |structs|
  {
    forall p, j: nat :: 0 <= p < |order| && Edge(structs, order[p], j) ==>
      j in order[..p] || Reaches(structs, j, order[p])
  }

  /** Every dependency precedes its users. */
  ghost predicate Respects(structs: seq<StructInfo>, order: seq<nat>)
    requires forall k :: 0 <= k < |order| ==> order[k] < |structs|
  {
    forall p, q :: 0 <= p < |order| && 0 <= q < |order| && Edge(structs, order[p], order[q]) ==> q < p
  }

  /** A struct is placed before one that comes first in the input only where that one, or something
      still earlier in the input, needs it. */
  ghost predicate MovesOnlyNeeded(structs: seq<StructInfo>, order: seq<nat>) {
    forall p, q :: 0 <= p < q < |order| && order[q] < order[p] ==> IsNeededBy(structs, order[p], order[q])
  }

  ghost predicate IsNeededBy(structs: seq<StructInfo>, j: nat, i: nat) {
    exists k: nat :: k <= i && Reaches(structs, k, j)
  }

  /** roots[p] is the loop step that placed order[p]. */
  ghost predicate PlacedBy(structs: seq<StructInfo>, order: seq<nat>, roots: seq<nat>) {
    && |roots| == |order|
    && (forall p :: 0 <= p < |order| ==> roots[p] <= order[p] && Reaches(structs, roots[p], order[p]))
    && forall p, q :: 0 <= p < q < |order| ==> roots[p] <= roots[q]
  }

  lemma PlacedMovesOnlyNeeded(structs: seq<StructInfo>, order: seq<nat>, roots: seq<nat>)
    requires PlacedBy(structs, order, roots)
    ensures MovesOnlyNeeded(structs, order)
  {
    hide Reaches;
    forall p, q | 0 <= p < q < |order| && order[q] < order[p] ensures IsNeededBy(structs, order[p], order[q]) {
      assert roots[p] <= roots[q] && Reaches(structs, roots[p], order[p]);
    }
  }

  /** So a listing in which every dependency already comes first is left as it is. */
  lemma SortedStays(structs: seq<StructInfo>, order: seq<nat>)
    requires IsPermutation(order, |structs|) && MovesOnlyNeeded(structs, order)
    requires forall i: nat, j: nat :: i < |structs| && Edge(structs, i, j) ==> j < i
    ensures forall p :: 0 <= p < |order| ==> order[p] == p
  {
    forall p, q | 0 <= p < q < |order| ensures order[p] < order[q] {
      if order[q] < order[p] {
        assert IsNeededBy(structs, order[p], order[q]);
        var k: nat :| k <= order[q] && Reaches(structs, k, order[p]);
        ReachesDown(structs, k, order[p]);
      }
    }
    AscendingIsIdentity(order, |structs|);
  }

  lemma ReachesDown(structs: seq<StructInfo>, k: nat, j: nat)
    requires Reaches(structs, k, j)
    requires forall i: nat, j: nat :: i < |structs| && Edge(structs, i, j) ==> j < i
    ensures j <= k
  {
    var path :| IsPath(structs, path) && path[0] == k && path[|path| - 1] == j;
    PathGoesDown(structs, path);
  }

  lemma {:induction false} PathGoesDown(structs: seq<StructInfo>, path: seq<nat>)
    requires IsPath(structs, path)
    requires forall i: nat, j: nat :: i < |structs| && Edge(structs, i, j) ==> j < i
    ensures path[|path| - 1] <= path[0]
    decreases |path|
  {
    if |path| > 1 {
      assert Edge(structs, path[0], path[1]);
      forall k | 0 <= k < |path| - 2 ensures Edge(structs, path[1..][k], path[1..][k + 1]) {
        assert Edge(structs, path[k + 1], path[k + 2]);
      }
      PathGoesDown(structs, path[1..]);
    }
  }

  lemma {:induction false} AscendingIsIdentity(order: seq<nat>, n: nat)
    requires |order| == n && forall p :: 0 <= p < n ==> order[p] < n
    requires forall p, q :: 0 <= p < q < n ==> order[p] < order[q]
    ensures forall p :: 0 <= p < n ==> order[p] == p
    decreases n
  {
    if n > 0 {
      assert order[n - 1] == n - 1 by { GrowsAtLeast(order, n - 1); }
      AscendingIsIdentity(order[..n - 1], n - 1);
    }
  }

  lemma {:induction false} GrowsAtLeast(order: seq<nat>, p: nat)
    requires p < |order| && forall a, b :: 0 <= a < b < |order| ==> order[a] < order[b]
    ensures p <= order[p]
  {
    if p > 0 { GrowsAtLeast(order, p - 1); }
  }

  lemma {:induction false} PathsRunBackwards(structs: seq<StructInfo>, order: seq<nat>, path: seq<nat>, p: nat, q: nat)
    requires IsPermutation(order, |structs|) && Respects(structs, order)
    requires IsPath(structs, path)
    requires p < |order| && q < |order| && order[p] == path[0] && order[q] == path[|path| - 1]
    ensures q <= p
    decreases |path|
  {
    if |path| == 1 {
      assert p == q;
    } else {
      var r := PositionOf(order, |structs|, path[1]);
      assert Edge(structs, path[0], path[1]);
      forall k | 0 <= k < |path| - 2 ensures Edge(structs, path[1..][k], path[1..][k + 1]) {
        assert Edge(structs, path[k + 1], path[k + 2]);
      }
      PathsRunBackwards(structs, order, path[1..], r, q);
    }
  }

  lemma PositionOf(order: seq<nat>, n: nat, i: nat) returns (p: nat)
    requires IsPermutation(order, n) && i < n
    ensures p < n && order[p] == i
  {
    DistinctCount(order);
    SubsetCount(Elements(order), Below(n));
    assert i in Elements(order);
    p :| 0 <= p < n && order[p] == i;
  }

  lemma ListingIsPermutation(order: seq<nat>, n: nat)
    requires forall k :: 0 <= k < |order| ==> order[k] < n
    requires Distinct(order)
    requires forall k: nat :: k < n ==> k in order
    ensures IsPermutation(order, n)
  {
    DistinctCount(order);
    assert Elements(order) == Below(n);
  }

  lemma DistinctPush(order: seq<nat>, i: nat)
    requires Distinct(order) && i !in order
    ensures Distinct(order + [i])
  {}

  lemma WellPlacedPush(structs: seq<StructInfo>, order: seq<nat>, i: nat)
    requires i < |structs| && forall k :: 0 <= k < |order| ==> order[k] < |structs|
    requires WellPlaced(structs, order)
    requires forall j: nat :: Edge(structs, i, j) ==> j in order || Reaches(structs, j, i)
    ensures WellPlaced(structs, order + [i])
  {
    hide Edge, Reaches;
    var longer := order + [i];
    forall p, j: nat | 0 <= p < |longer| && Edge(structs, longer[p], j)
      ensures j in longer[..p] || Reaches(structs, j, longer[p])
    {
      if p == |order| {
        assert longer[..p] == order;
      } else {
        assert longer[..p] == order[..p] && longer[p] == order[p];
      }
    }
  }

  /** A well-placed listing puts every dependency first exactly when the graph is acyclic. */
  lemma RespectsIffAcyclic(structs: seq<StructInfo>, order: seq<nat>)
    requires IsPermutation(order, |structs|) && WellPlaced(structs, order)
    ensures Respects(structs, order) <==> Acyclic(structs)
  {
    if Acyclic(structs) {
      forall p, q | 0 <= p < |order| && 0 <= q < |order| && Edge(structs, order[p], order[q]) ensures q < p {
        assert order[q] in order[..p];
        var k :| 0 <= k < p && order[..p][k] == order[q];
        assert order[k] == order[q];
      }
    }
    if Respects(structs, order) {
      forall i: nat, j: nat | i < |structs| && Edge(structs, i, j) ensures !Reaches(structs, j, i) {
        if Reaches(structs, j, i) {
          var path :| IsPath(structs, path) && path[0] == j && path[|path| - 1] == i;
          var p := PositionOf(order, |structs|, i);
          var q := PositionOf(order, |structs|, j);
          PathsRunBackwards(structs, order, path, q, p);
        }
      }
    }
  }

  /** The state the `visit` closure shares: what is visited, and the order so far. */
  class Sorter {
    const structs: seq<StructInfo>
    const idx: map<string, nat>
    const visited: array<bool>
    var order: seq<nat>

    constructor (structs: seq<StructInfo>, idx: map<string, nat>)
      requires idx == Index(structs)
      ensures this.structs == structs && this.idx == idx && order == []
      ensures fresh(visited) && visited.Length == |structs|
      ensures forall k :: 0 <= k < visited.Length ==> !visited[k]
    {
      this.structs, this.idx := structs, idx;
      order := [];
      visited := new bool[|structs|](_ => false);
    }

    /** Between calls: visited are the finished positions and those on the recursion stack. */
    ghost predicate Valid(stack: set<nat>)
      reads this, visited
    {
      && idx == Index(structs) && visited.Length == |structs|
      && (forall k :: 0 <= k < |order| ==> order[k] < |structs|)
      && Distinct(order)
      && (forall s :: s in stack ==> s < |structs| && s !in order)
      && (forall k: nat :: k < |structs| ==> (visited[k] <==> k in order || k in stack))
      && WellPlaced(structs, order)
    }

    ghost function Unvisited(): set<nat>
      reads this, visited
    {
      set k: nat | k in Below(visited.Length) && !visited[k]
    }

    /** Visits i and everything it needs. Terminates on any graph, since each call visits
        one more position before recursing. */
    method Visit(i: nat, ghost stack: set<nat>)
      requires Valid(stack) && i < |structs|
      requires forall s :: s in stack ==> Reaches(structs, s, i)
      modifies this, visited
      ensures Valid(stack) && visited[i]
      ensures old(order) <= order
      ensures forall p :: |old(order)| <= p < |order| ==> Reaches(structs, i, order[p])
      ensures forall k :: 0 <= k < visited.Length && old(visited[k]) ==> visited[k]
      decreases Unvisited(), 0
    {
      if visited[i] {
        return;
      }
      visited[i] := true;
      ghost var inner := stack + {i};
      ReachesSelf(structs, i);
      assert i in old(Unvisited()) && i !in Unvisited();
      VisitAll(i, structs[i].embedded, inner);
      VisitAll(i, structs[i].deps, inner);
      forall j: nat | Edge(structs, i, j) ensures j in order || Reaches(structs, j, i) {
        var name :| (name in structs[i].embedded || name in structs[i].deps) && IndexedAs(structs, name, j);
        assert visited[j];
      }
      ghost var before := order;
      WellPlacedPush(structs, before, i);
      order := order + [i];
      DistinctPush(before, i);
      assert forall k: nat :: k in order <==> k in before || k == i;
      assert forall p :: |old(order)| <= p < |before| ==> order[p] == before[p];
    }

    method VisitAll(i: nat, names: seq<string>, ghost stack: set<nat>)
      requires Valid(stack) && i < |structs| && i in stack
      requires names == structs[i].embedded || names == structs[i].deps
      requires forall s :: s in stack ==> Reaches(structs, s, i)
      modifies this, visited
      ensures Valid(stack)
      ensures old(order) <= order
      ensures forall p :: |old(order)| <= p < |order| ==> Reaches(structs, i, order[p])
      ensures forall k :: 0 <= k < visited.Length && old(visited[k]) ==> visited[k]
      ensures forall name :: name in names && name in idx ==> visited[idx[name]]
      decreases Unvisited(), 1
    {
      for n := 0 to |names|
        invariant Valid(stack) && old(order) <= order
        invariant forall p :: |old(order)| <= p < |order| ==> Reaches(structs, i, order[p])
        invariant forall k :: 0 <= k < visited.Length && old(visited[k]) ==> visited[k]
        invariant forall l :: 0 <= l < n && names[l] in idx ==> visited[idx[names[l]]]
      {
        if names[n] in idx {
          var j := idx[names[n]];
          assert IndexedAs(structs, names[n], j) && Edge(structs, i, j);
          forall s | s in stack ensures Reaches(structs, s, j) { ReachesStep(structs, s, i, j); }
          assert Unvisited() <= old(Unvisited());
          ghost var before := order;
          Visit(j, stack);
          forall p | |before| <= p < |order| ensures Reaches(structs, i, order[p]) {
            ReachesFrom(structs, i, j, order[p]);
          }
        }
      }
    }
  }

  method BuildIndex(structs: seq<StructInfo>) returns (idx: map<string, nat>)
    ensures idx == Index(structs)
  {
    idx := map[];
    for i := 0 to |structs|
      invariant idx == Index(structs[..i])
    {
      assert structs[..i + 1][..i] == structs[..i];
      idx := idx[structs[i].name := i];
    }
    assert structs[..|structs|] == structs;
  }

  /** On every graph the result is a permutation of the input in which a dependency comes
      first unless it depends back on its user; all dependencies come first exactly when the
      dependency graph is acyclic. */
  method Sort(structs: seq<StructInfo>) returns (result: seq<StructInfo>, ghost order: seq<nat>)
    ensures IsPermutation(order, |structs|) && |result| == |structs|
    ensures forall k :: 0 <= k < |structs| ==> result[k] == structs[order[k]]
    ensures WellPlaced(structs, order)
    ensures Respects(structs, order) <==> Acyclic(structs)
    ensures MovesOnlyNeeded(structs, order)
  {
    hide Edge, Reaches;
    ghost var roots: seq<nat> := [];
    var idx := BuildIndex(structs);
    var sorter := new Sorter(structs, idx);
    for i := 0 to |structs|
      invariant fresh(sorter) && fresh(sorter.visited) && sorter.structs == structs
      invariant sorter.Valid({})
      invariant forall k :: 0 <= k < i ==> sorter.visited[k]
      invariant PlacedBy(structs, sorter.order, roots) && forall p :: 0 <= p < |roots| ==> roots[p] < i
    {
      ghost var before := sorter.order;
      sorter.Visit(i, {});
      roots := roots + seq(|sorter.order| - |before|, _ => i);
      forall p | |before| <= p < |sorter.order| ensures i <= sorter.order[p] {
        assert sorter.order[p] !in before by { assert before == sorter.order[..|before|]; }
      }
      assert forall p :: 0 <= p < |before| ==> sorter.order[p] == before[p];
    }
    order := sorter.order;
    PlacedMovesOnlyNeeded(structs, order, roots);
    ListingIsPermutation(order, |structs|);
    result := [];
    for k := 0 to |sorter.order|
      invariant |result| == k && forall l :: 0 <= l < k ==> result[l] == structs[order[l]]
    {
      result := result + [structs[sorter.order[k]]];
    }
    RespectsIffAcyclic(structs, order);
  }
}
