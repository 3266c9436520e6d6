/** Dependency edges between goal ids, the counters Kahn's algorithm keeps over them,
    and what it means for a goal to lead into a dependency cycle. */
module DependencyGraph {
  import opened Sequences

  // (dependency, dependent): the second id may only run after the first.
  type Edge = (string, string)

  // ----- the adjacency list and the in-degree of an id -----

  function Dependents(edges: seq<Edge>, id: string): seq<string> {
    if edges == [] then []
    else
      var last := edges[|edges| - 1];
      Dependents(edges[..|edges| - 1], id) + if last.0 == id then [last.1] else []
  }

  // The edges into `id` whose dependency has not been taken from the queue yet.
  function Remaining(edges: seq<Edge>, id: string, taken: set<string>): nat {
    if edges == [] then 0
    else
      var last := edges[|edges| - 1];
      Remaining(edges[..|edges| - 1], id, taken) + if last.1 == id && last.0 !in taken then 1 else 0
  }

  function Occurrences(s: seq<string>, x: string): nat {
    if s == [] then 0
    else Occurrences(s[..|s| - 1], x) + if s[|s| - 1] == x then 1 else 0
  }

  lemma OccurrencesAppend(s: seq<string>, y: string, x: string)
    ensures Occurrences(s + [y], x) == Occurrences(s, x) + if y == x then 1 else 0
  {
    assert (s + [y])[..|s|] == s;
  }

  lemma {:induction false} OccurrencesPositive(s: seq<string>, x: string)
    ensures x in s <==> Occurrences(s, x) > 0
  {
    if s != [] {
      OccurrencesPositive(s[..|s| - 1], x);
      assert s == s[..|s| - 1] + [s[|s| - 1]];
    }
  }

  // Taking `d` from the queue lowers the count of `id` once per entry in d's adjacency list.
  lemma {:induction false} TakingLowers(edges: seq<Edge>, id: string, taken: set<string>, d: string)
    requires d !in taken
    ensures Remaining(edges, id, taken) == Remaining(edges, id, taken + {d}) + Occurrences(Dependents(edges, d), id)
  {
    if edges != [] {
      var front, last := edges[..|edges| - 1], edges[|edges| - 1];
      TakingLowers(front, id, taken, d);
      if last.0 == d {
        OccurrencesAppend(Dependents(front, d), last.1, id);
      } else {
        assert Dependents(front, d) + [] == Dependents(front, d);
      }
    }
  }

  lemma {:induction false} NothingRemains(edges: seq<Edge>, id: string, taken: set<string>)
    ensures Remaining(edges, id, taken) == 0 <==> forall e :: e in edges && e.1 == id ==> e.0 in taken
  {
    if edges != [] {
      var front, last := edges[..|edges| - 1], edges[|edges| - 1];
      NothingRemains(front, id, taken);
      assert edges == front + [last];
      assert forall e :: e in edges <==> e in front || e == last;
    }
  }

  lemma {:induction false} DependentsAreEdges(edges: seq<Edge>, d: string, x: string)
    ensures x in Dependents(edges, d) <==> (d, x) in edges
  {
    if edges != [] {
      var front, last := edges[..|edges| - 1], edges[|edges| - 1];
      DependentsAreEdges(front, d, x);
      assert edges == front + [last];
      assert forall e :: e in edges <==> e in front || e == last;
    }
  }

  lemma {:induction false} FewerTakenMoreRemaining(edges: seq<Edge>, id: string, less: set<string>, more: set<string>)
    requires less <= more
    ensures Remaining(edges, id, more) <= Remaining(edges, id, less)
  {
    if edges != [] {
      FewerTakenMoreRemaining(edges[..|edges| - 1], id, less, more);
    }
  }

  // ----- orders and cycles -----

  // Everything an element of `order` depends on stands before it.
  ghost predicate DependenciesFirst(edges: seq<Edge>, order: seq<string>) {
    forall e, k :: e in edges && 0 <= k < |order| && order[k] == e.1 ==> e.0 in order[..k]
  }

  // A walk from a goal to something it depends on, and on from there.
  ghost predicate IsDependencyWalk(edges: seq<Edge>, walk: seq<string>) {
    |walk| > 0 && forall i :: 0 <= i < |walk| - 1 ==> (walk[i + 1], walk[i]) in edges
  }

  ghost predicate LeadsIntoCycle(edges: seq<Edge>, id: string) {
    exists walk ::
      IsDependencyWalk(edges, walk) && walk[0] == id && !Distinct(walk)
  }

  lemma WalkSuffix(edges: seq<Edge>, walk: seq<string>, from: nat)
    requires IsDependencyWalk(edges, walk) && from < |walk|
    ensures IsDependencyWalk(edges, walk[from..])
  {
    var rest := walk[from..];
    forall i | 0 <= i < |rest| - 1 ensures (rest[i + 1], rest[i]) in edges {
      assert (walk[from + i + 1], walk[from + i]) in edges;
    }
  }

  // A walk that starts at position k of an order stays before k.
  lemma {:induction false} WalkDescends(edges: seq<Edge>, order: seq<string>, k: nat, walk: seq<string>, j: nat)
    requires Distinct(order) && DependenciesFirst(edges, order) && k < |order|
    requires IsDependencyWalk(edges, walk) && walk[0] == order[k] && 0 < j < |walk|
    ensures walk[j] in order[..k]
    decreases k
  {
    assert (walk[1], walk[0]) in edges;
    if j > 1 {
      var k' :| 0 <= k' < k && order[k'] == walk[1];
      WalkSuffix(edges, walk, 1);
      WalkDescends(edges, order, k', walk[1..], j - 1);
    }
  }

  lemma OrderedIdsLeadIntoNoCycle(edges: seq<Edge>, order: seq<string>, id: string)
    requires Distinct(order) && DependenciesFirst(edges, order) && id in order
    ensures !LeadsIntoCycle(edges, id)
  {
    forall walk | IsDependencyWalk(edges, walk) && walk[0] == id
      ensures Distinct(walk)
    {
      forall i, j | 0 <= i < j < |walk|
        ensures walk[i] != walk[j]
      {
        var start :| 0 <= start < |order| && order[start] == id;
        if i > 0 {
          WalkDescends(edges, order, start, walk, i);
        }
        assert walk[i] in order;
        var k :| 0 <= k < |order| && order[k] == walk[i];
        WalkSuffix(edges, walk, i);
        WalkDescends(edges, order, k, walk[i..], j - i);
      }
    }
  }

  // Every id of the set waits for another id of the set.
  ghost predicate Stuck(edges: seq<Edge>, ids: set<string>) {
    forall x :: x in ids ==> WaitsFor(edges, ids, x)
  }

  ghost predicate WaitsFor(edges: seq<Edge>, ids: set<string>, x: string) {
    exists d :: d in ids && (d, x) in edges
  }

  lemma {:induction false} WalkWithin(edges: seq<Edge>, ids: set<string>, id: string, steps: nat)
      returns (walk: seq<string>)
    requires Stuck(edges, ids) && id in ids
    ensures IsDependencyWalk(edges, walk) && walk[0] == id && |walk| == steps + 1
    ensures forall x :: x in walk ==> x in ids
    decreases steps
  {
    if steps == 0 {
      walk := [id];
    } else {
      assert WaitsFor(edges, ids, id);
      var d :| d in ids && (d, id) in edges;
      var rest := WalkWithin(edges, ids, d, steps - 1);
      walk := [id] + rest;
    }
  }

  lemma StuckIdsLeadIntoCycles(edges: seq<Edge>, ids: set<string>, id: string)
    requires Stuck(edges, ids) && id in ids
    ensures LeadsIntoCycle(edges, id)
  {
    var walk := WalkWithin(edges, ids, id, |ids|);
    if Distinct(walk) {
      DistinctFits(walk, ids);
    }
  }
}
