/** LongHorizonTaskManager._topological_sort: Kahn's algorithm over the goals' known
    dependencies, with everything it could not place appended at the end. */
module TopologicalSort {
  import opened DependencyGraph
  import opened LongHorizonTypes
  import opened Sequences

  function GoalIds(goals: seq<SubGoal>): seq<string> {
    seq(|goals|, i requires 0 <= i < |goals| => goals[i].id)
  }

  function IdSet(goals: seq<SubGoal>): set<string> {
    set g | g in goals :: g.id
  }

  // The edges of one goal, and of a list of goals; dependencies on unknown ids make no edge.
  function EdgesOf(id: string, dependencies: seq<string>, known: set<string>): seq<Edge> {
    if dependencies == [] then []
    else
      var d := dependencies[|dependencies| - 1];
      EdgesOf(id, dependencies[..|dependencies| - 1], known) + if d in known then [(d, id)] else []
  }

  function EdgesWithin(goals: seq<SubGoal>, known: set<string>): seq<Edge> {
    if goals == [] then []
    else
      var g := goals[|goals| - 1];
      EdgesWithin(goals[..|goals| - 1], known) + EdgesOf(g.id, g.dependencies, known)
  }

  function Edges(goals: seq<SubGoal>): seq<Edge> {
    EdgesWithin(goals, IdSet(goals))
  }

  // A dictionary comprehension keeps the last goal of an id, at the position of the first.
  function LastById(goals: seq<SubGoal>): map<string, SubGoal> {
    if goals == [] then map[]
    else LastById(goals[..|goals| - 1])[goals[|goals| - 1].id := goals[|goals| - 1]]
  }

  function KeyOrder(goals: seq<SubGoal>): seq<string> {
    if goals == [] then []
    else
      var front, id := goals[..|goals| - 1], goals[|goals| - 1].id;
      KeyOrder(front) + if id in IdSet(front) then [] else [id]
  }

  lemma {:induction false} KeyOrderIsIdSet(goals: seq<SubGoal>)
    ensures Distinct(KeyOrder(goals))
    ensures forall id :: id in KeyOrder(goals) <==> id in IdSet(goals)
    ensures LastById(goals).Keys == IdSet(goals)
    ensures forall id :: id in LastById(goals) ==> LastById(goals)[id] in goals && LastById(goals)[id].id == id
  {
    if goals != [] {
      var front, g := goals[..|goals| - 1], goals[|goals| - 1];
      KeyOrderIsIdSet(front);
      assert goals == front + [g];
      assert IdSet(goals) == IdSet(front) + {g.id};
    }
  }

  lemma {:induction false} EdgesOfAre(id: string, dependencies: seq<string>, known: set<string>, e: Edge)
    ensures e in EdgesOf(id, dependencies, known) <==> e.1 == id && e.0 in dependencies && e.0 in known
  {
    if dependencies != [] {
      var front, d := dependencies[..|dependencies| - 1], dependencies[|dependencies| - 1];
      EdgesOfAre(id, front, known, e);
      assert dependencies == front + [d];
    }
  }

  ghost predicate DependsOnKnown(g: SubGoal, known: set<string>, e: Edge) {
    e.1 == g.id && e.0 in g.dependencies && e.0 in known
  }

  lemma {:induction false} EdgesWithinAre(goals: seq<SubGoal>, known: set<string>, e: Edge)
    ensures e in EdgesWithin(goals, known) <==> exists g :: g in goals && DependsOnKnown(g, known, e)
  {
    if goals != [] {
      var front, g := goals[..|goals| - 1], goals[|goals| - 1];
      EdgesWithinAre(front, known, e);
      EdgesOfAre(g.id, g.dependencies, known, e);
      assert goals == front + [g];
      assert g in goals && forall h :: h in front ==> h in goals;
    }
  }

  // in_degree and dependents as they stand once the given edges have been counted.
  ghost predicate TablesFor(edges: seq<Edge>, ids: set<string>, inDegree: map<string, int>,
                            dependents: map<string, seq<string>>)
  {
    && inDegree.Keys == ids && dependents.Keys == ids
    && forall id :: id in ids ==> inDegree[id] == Remaining(edges, id, {}) && dependents[id] == Dependents(edges, id)
  }

  lemma EdgeCounted(edges: seq<Edge>, d: string, id: string, x: string)
    ensures Remaining(edges + [(d, id)], x, {}) == Remaining(edges, x, {}) + if x == id then 1 else 0
    ensures Dependents(edges + [(d, id)], x) == Dependents(edges, x) + if x == d then [id] else []
  {
    assert (edges + [(d, id)])[..|edges|] == edges;
  }

  method CountOneEdge(ghost edges: seq<Edge>, ids: set<string>, d: string, id: string,
                      inDegree: map<string, int>, dependents: map<string, seq<string>>)
      returns (inDegree': map<string, int>, dependents': map<string, seq<string>>)
    requires TablesFor(edges, ids, inDegree, dependents) && id in ids
    ensures TablesFor(edges + if d in ids then [(d, id)] else [], ids, inDegree', dependents')
  {
    inDegree', dependents' := inDegree, dependents;
    if d in dependents {
      dependents' := dependents[d := dependents[d] + [id]];
      inDegree' := inDegree[id := inDegree[id] + 1];
      forall x
        ensures Remaining(edges + [(d, id)], x, {}) == Remaining(edges, x, {}) + if x == id then 1 else 0
        ensures Dependents(edges + [(d, id)], x) == Dependents(edges, x) + if x == d then [id] else []
      {
        EdgeCounted(edges, d, id, x);
      }
    } else {
      assert edges + [] == edges;
    }
  }

  lemma OneMoreEdge(edges: seq<Edge>, id: string, dependencies: seq<string>, j: nat, known: set<string>)
    requires j < |dependencies|
    ensures edges + EdgesOf(id, dependencies[..j + 1], known)
         == edges + EdgesOf(id, dependencies[..j], known)
            + if dependencies[j] in known then [(dependencies[j], id)] else []
  {
    assert dependencies[..j + 1][..j] == dependencies[..j];
  }

  method CountGoal(ghost edges: seq<Edge>, ids: set<string>, g: SubGoal,
                   inDegree: map<string, int>, dependents: map<string, seq<string>>)
      returns (inDegree': map<string, int>, dependents': map<string, seq<string>>)
    requires TablesFor(edges, ids, inDegree, dependents) && g.id in ids
    ensures TablesFor(edges + EdgesOf(g.id, g.dependencies, ids), ids, inDegree', dependents')
  {
    inDegree', dependents' := inDegree, dependents;
    ghost var counted := edges;
    assert edges + [] == edges;
    for j := 0 to |g.dependencies|
      invariant counted == edges + EdgesOf(g.id, g.dependencies[..j], ids)
      invariant TablesFor(counted, ids, inDegree', dependents')
    {
      var d := g.dependencies[j];
      OneMoreEdge(edges, g.id, g.dependencies, j, ids);
      inDegree', dependents' := CountOneEdge(counted, ids, d, g.id, inDegree', dependents');
      counted := counted + if d in ids then [(d, g.id)] else [];
    }
    assert g.dependencies[..|g.dependencies|] == g.dependencies;
  }

  method BuildTables(goals: seq<SubGoal>, ids: set<string>)
      returns (inDegree: map<string, int>, dependents: map<string, seq<string>>)
    requires ids == IdSet(goals)
    ensures TablesFor(EdgesWithin(goals, ids), ids, inDegree, dependents)
  {
    inDegree := map id | id in ids :: 0;
    dependents := map id | id in ids :: [];
    for i := 0 to |goals|
      invariant TablesFor(EdgesWithin(goals[..i], ids), ids, inDegree, dependents)
    {
      assert goals[i] in goals;
      assert goals[..i + 1][..i] == goals[..i];
      inDegree, dependents := CountGoal(EdgesWithin(goals[..i], ids), ids, goals[i], inDegree, dependents);
    }
    assert goals[..|goals|] == goals;
  }

  lemma {:induction false} OccurrencesOfPrefix(s: seq<string>, n: nat, x: string)
    requires n <= |s|
    ensures Occurrences(s[..n], x) <= Occurrences(s, x)
  {
    if n == |s| {
      assert s[..n] == s;
    } else {
      assert s[..|s| - 1][..n] == s[..n];
      OccurrencesOfPrefix(s[..|s| - 1], n, x);
    }
  }

  // ----- the queue -----

  // What the loop knows between two turns: the ids taken so far, the ids waiting in the
  // queue, and for every other id how many of its dependencies have not been taken.
  ghost predicate Draining(edges: seq<Edge>, ids: set<string>, inDegree: map<string, int>,
                           taken: seq<string>, queue: seq<string>)
  {
    && Distinct(taken + queue)
    && ToSet(taken + queue) <= ids
    && inDegree.Keys == ids
    && (forall id :: id in ids ==> inDegree[id] == Remaining(edges, id, ToSet(taken)))
    && (forall id :: id in ids ==> (inDegree[id] == 0 <==> id in taken + queue))
    && DependenciesFirst(edges, taken)
  }

  // The same in the middle of a turn: `d` has been taken, and the first `n` entries of its
  // adjacency list have been counted down.
  ghost predicate CountingDown(edges: seq<Edge>, ids: set<string>, inDegree: map<string, int>,
                               before: seq<string>, d: string, n: nat, queue: seq<string>)
  {
    var list := Dependents(edges, d);
    && n <= |list|
    && Distinct(before + [d] + queue)
    && ToSet(before + [d] + queue) <= ids
    && inDegree.Keys == ids
    && (forall id :: id in ids ==>
         inDegree[id] + Occurrences(list[..n], id) == Remaining(edges, id, ToSet(before)))
    && (forall id :: id in ids ==> (inDegree[id] == 0 <==> id in before + [d] + queue))
  }

  method CountDownOne(ghost edges: seq<Edge>, ids: set<string>, inDegree: map<string, int>,
                      ghost before: seq<string>, ghost d: string, ghost n: nat, queue: seq<string>, x: string)
      returns (inDegree': map<string, int>, queue': seq<string>)
    requires forall e :: e in edges ==> e.0 in ids && e.1 in ids
    requires CountingDown(edges, ids, inDegree, before, d, n, queue)
    requires n < |Dependents(edges, d)| && x == Dependents(edges, d)[n]
    ensures CountingDown(edges, ids, inDegree', before, d, n + 1, queue')
    ensures queue' == queue || queue' == queue + [x]
  {
    hide Remaining, Dependents, Occurrences;
    ghost var list := Dependents(edges, d);
    DependentsAreEdges(edges, d, x);
    assert d !in ToSet(before) by {
      assert (before + [d] + queue)[|before|] == d;
      assert forall i :: 0 <= i < |before| ==> (before + [d] + queue)[i] == before[i];
    }
    TakingLowers(edges, x, ToSet(before), d);
    OccurrencesOfPrefix(list, n + 1, x);
    assert list[..n + 1] == list[..n] + [x];
    forall id ensures Occurrences(list[..n + 1], id) == Occurrences(list[..n], id) + if x == id then 1 else 0 {
      OccurrencesAppend(list[..n], x, id);
    }
    assert inDegree[x] >= 1;
    inDegree' := inDegree[x := inDegree[x] - 1];
    queue' := queue;
    if inDegree'[x] == 0 {
      queue' := queue + [x];
      assert x !in before + [d] + queue;
      assert before + [d] + queue' == before + [d] + queue + [x];
    }
  }

  lemma TakeFirst(edges: seq<Edge>, ids: set<string>, inDegree: map<string, int>, taken: seq<string>,
                  queue: seq<string>)
    requires Draining(edges, ids, inDegree, taken, queue) && queue != []
    ensures CountingDown(edges, ids, inDegree, taken, queue[0], 0, queue[1..])
    ensures DependenciesFirst(edges, taken + [queue[0]])
    ensures queue[0] in ids && queue[0] !in taken
  {
    var d := queue[0];
    assert taken + [d] + queue[1..] == taken + queue;
    assert (taken + queue)[|taken|] == d;
    assert forall i :: 0 <= i < |taken| ==> (taken + queue)[i] == taken[i];
    NothingRemains(edges, d, ToSet(taken));
    forall e, k | e in edges && 0 <= k < |taken + [d]| && (taken + [d])[k] == e.1
      ensures e.0 in (taken + [d])[..k]
    {
      if k < |taken| {
        assert (taken + [d])[..k] == taken[..k];
      } else {
        assert (taken + [d])[..k] == taken;
      }
    }
  }

  lemma TurnDone(edges: seq<Edge>, ids: set<string>, inDegree: map<string, int>, before: seq<string>, d: string,
                 queue: seq<string>)
    requires CountingDown(edges, ids, inDegree, before, d, |Dependents(edges, d)|, queue)
    requires DependenciesFirst(edges, before + [d]) && d !in before
    ensures Draining(edges, ids, inDegree, before + [d], queue)
    ensures ids - ToSet(before + [d]) == ids - ToSet(before) - {d}
  {
    var list := Dependents(edges, d);
    assert list[..|list|] == list;
    assert ToSet(before + [d]) == ToSet(before) + {d};
    forall id | id in ids ensures inDegree[id] == Remaining(edges, id, ToSet(before + [d])) {
      TakingLowers(edges, id, ToSet(before), d);
    }
  }

  // The ids that wait for nothing, in the order of the table.
  function ReadyIds(keys: seq<string>, inDegree: map<string, int>): seq<string> {
    if keys == [] then []
    else
      var last := keys[|keys| - 1];
      ReadyIds(keys[..|keys| - 1], inDegree) + if last in inDegree && inDegree[last] == 0 then [last] else []
  }

  lemma {:induction false} ReadyIdsAre(keys: seq<string>, inDegree: map<string, int>)
    requires Distinct(keys)
    ensures Distinct(ReadyIds(keys, inDegree))
    ensures forall id :: id in ReadyIds(keys, inDegree) <==> id in keys && id in inDegree && inDegree[id] == 0
  {
    if keys != [] {
      ReadyIdsAre(keys[..|keys| - 1], inDegree);
      assert keys == keys[..|keys| - 1] + [keys[|keys| - 1]];
    }
  }

  lemma StartDraining(edges: seq<Edge>, ids: set<string>, keys: seq<string>,
                      inDegree: map<string, int>, dependents: map<string, seq<string>>)
    requires TablesFor(edges, ids, inDegree, dependents) && Distinct(keys) && ToSet(keys) == ids
    ensures Draining(edges, ids, inDegree, [], ReadyIds(keys, inDegree))
  {
    ReadyIdsAre(keys, inDegree);
    assert [] + ReadyIds(keys, inDegree) == ReadyIds(keys, inDegree);
    assert ToSet<string>([]) == {};
  }

  lemma LeftOversWait(edges: seq<Edge>, ids: set<string>, inDegree: map<string, int>, taken: seq<string>)
    requires forall e :: e in edges ==> e.0 in ids && e.1 in ids
    requires Draining(edges, ids, inDegree, taken, [])
    ensures Distinct(taken) && ToSet(taken) <= ids && DependenciesFirst(edges, taken)
    ensures Stuck(edges, ids - ToSet(taken))
  {
    assert taken + [] == taken;
    forall x | x in ids - ToSet(taken) ensures WaitsFor(edges, ids - ToSet(taken), x) {
      NothingRemains(edges, x, ToSet(taken));
    }
  }

  // ----- first come, first served -----

  // Everything the k-th id depends on is among the first n.
  ghost predicate FreeAt(edges: seq<Edge>, all: seq<string>, k: nat, n: nat)
    requires k < |all| && n <= |all|
  {
    forall e :: e in edges && e.1 == all[k] ==> e.0 in all[..n]
  }

  predicate OccursBefore(s: seq<string>, x: string, y: string) {
    exists a, b :: 0 <= a < b < |s| && s[a] == x && s[b] == y
  }

  // The i-th id became free before the j-th, or both were free from the start and the table lists
  // them in this order, or the same id freed both and its adjacency list does.
  ghost predicate InTurn(edges: seq<Edge>, keys: seq<string>, all: seq<string>, n: nat, i: nat, j: nat)
    requires i < |all| && j < |all| && n <= |all|
  {
    || (exists p :: 0 <= p <= n && FreeAt(edges, all, i, p) && !FreeAt(edges, all, j, p))
    || OccursBefore(keys, all[i], all[j])
    || (exists d :: OccursBefore(Dependents(edges, d), all[i], all[j]))
  }

  // Whoever becomes free first goes first, as far as the first n ids go.
  ghost predicate IsFair(edges: seq<Edge>, keys: seq<string>, all: seq<string>, n: nat) {
    && n <= |all|
    && (forall i, j, p :: 0 <= i < j < |all| && 0 <= p <= n && FreeAt(edges, all, j, p) ==> FreeAt(edges, all, i, p))
    && (forall i, j :: 0 <= i < j < |all| ==> InTurn(edges, keys, all, n, i, j))
  }

  lemma FreeInLonger(edges: seq<Edge>, all: seq<string>, more: seq<string>, k: nat, n: nat)
    requires all <= more && k < |all| && n <= |all|
    ensures FreeAt(edges, all, k, n) <==> FreeAt(edges, more, k, n)
  {
    assert more[..n] == all[..n];
  }

  // Between two turns every id that has been enqueued is free, and no other.
  lemma DrainingIsFree(edges: seq<Edge>, ids: set<string>, inDegree: map<string, int>,
                       taken: seq<string>, queue: seq<string>, all: seq<string>, k: nat)
    requires Draining(edges, ids, inDegree, taken, queue) && taken <= all && k < |all| && all[k] in ids
    ensures FreeAt(edges, all, k, |taken|) <==> all[k] in taken + queue
  {
    NothingRemains(edges, all[k], ToSet(taken));
    assert all[..|taken|] == taken;
  }

  // The ids enqueued by counting down the first n entries of an adjacency list.
  predicate EnqueuedBy(list: seq<string>, n: nat, added: seq<string>) {
    && n <= |list|
    && (forall a :: 0 <= a < |added| ==> added[a] in list[..n])
    && (forall a, b :: 0 <= a < b < |added| ==> OccursBefore(list, added[a], added[b]))
  }

  lemma OneMoreEnqueued(list: seq<string>, n: nat, added: seq<string>)
    requires EnqueuedBy(list, n, added) && n < |list|
    ensures EnqueuedBy(list, n + 1, added) && EnqueuedBy(list, n + 1, added + [list[n]])
  {
    assert list[..n + 1] == list[..n] + [list[n]];
    var more := added + [list[n]];
    forall a, b | 0 <= a < b < |more| ensures OccursBefore(list, more[a], more[b]) {
      if b == |added| {
        var i :| 0 <= i < n && list[..n][i] == more[a];
        assert list[i] == more[a] && list[n] == more[b];
      }
    }
  }

  // With the n-th id taken, all ids are free that were known by then and those it has freed.
  ghost predicate Freed(edges: seq<Edge>, known: seq<string>, all: seq<string>, n: nat, m: nat) {
    && known <= all && n < |known| && m == n + 1
    && (forall k :: 0 <= k < |all| ==> FreeAt(edges, all, k, m))
    && (forall k :: 0 <= k < |all| ==> (FreeAt(edges, all, k, n) <==> k < |known|))
  }

  lemma FairnessGrows(edges: seq<Edge>, keys: seq<string>, known: seq<string>, all: seq<string>, n: nat,
                      i: nat, j: nat, p: nat)
    requires IsFair(edges, keys, known, n) && Freed(edges, known, all, n, n + 1)
    requires i < j < |all| && p <= n + 1 && FreeAt(edges, all, j, p)
    ensures FreeAt(edges, all, i, p)
  {
    if p <= n {
      assert all[..p] <= all[..n];
      assert FreeAt(edges, all, j, n);
      FreeInLonger(edges, known, all, j, p);
      FreeInLonger(edges, known, all, i, p);
    }
  }

  lemma TurnsGrow(edges: seq<Edge>, keys: seq<string>, known: seq<string>, all: seq<string>, n: nat,
                  d: string, i: nat, j: nat)
    requires IsFair(edges, keys, known, n) && Freed(edges, known, all, n, n + 1) && i < j < |all|
    requires |known| <= i ==> OccursBefore(Dependents(edges, d), all[i], all[j])
    ensures InTurn(edges, keys, all, n + 1, i, j)
  {
    hide OccursBefore, FreeAt;
    if j < |known| {
      assert InTurn(edges, keys, known, n, i, j);
      if p :| 0 <= p <= n && FreeAt(edges, known, i, p) && !FreeAt(edges, known, j, p) {
        FreeInLonger(edges, known, all, i, p);
        FreeInLonger(edges, known, all, j, p);
      }
    } else if i < |known| {
      assert FreeAt(edges, all, i, n) && !FreeAt(edges, all, j, n);
    }
  }

  lemma FairTurn(edges: seq<Edge>, ids: set<string>, keys: seq<string>, inDegree: map<string, int>,
                 inDegree': map<string, int>, taken: seq<string>, queue: seq<string>, added: seq<string>)
    requires queue != [] && Draining(edges, ids, inDegree, taken, queue)
    requires Draining(edges, ids, inDegree', taken + [queue[0]], queue[1..] + added)
    requires EnqueuedBy(Dependents(edges, queue[0]), |Dependents(edges, queue[0])|, added)
    requires IsFair(edges, keys, taken + queue, |taken|)
    ensures IsFair(edges, keys, taken + [queue[0]] + (queue[1..] + added), |taken| + 1)
  {
    hide Draining, OccursBefore, FreeAt, InTurn;
    var n, d, known, all := |taken|, queue[0], taken + queue, taken + [queue[0]] + (queue[1..] + added);
    var m := n + 1;
    assert all == known + added;
    forall k | 0 <= k < |all|
      ensures FreeAt(edges, all, k, m) && (FreeAt(edges, all, k, n) <==> k < |known|)
    {
      EnqueuedIsFree(edges, ids, inDegree, inDegree', taken, queue, added, k);
    }
    assert Freed(edges, known, all, n, m);
    forall i, j, p | 0 <= i < j < |all| && 0 <= p <= m && FreeAt(edges, all, j, p) ensures FreeAt(edges, all, i, p) {
      FairnessGrows(edges, keys, known, all, n, i, j, p);
    }
    forall i, j | 0 <= i < j < |all| ensures InTurn(edges, keys, all, m, i, j) {
      assert |known| <= i ==> all[i] == added[i - |known|] && all[j] == added[j - |known|];
      TurnsGrow(edges, keys, known, all, n, d, i, j);
    }
  }

  lemma EnqueuedIsFree(edges: seq<Edge>, ids: set<string>, inDegree: map<string, int>, inDegree': map<string, int>,
                       taken: seq<string>, queue: seq<string>, added: seq<string>, k: nat)
    requires queue != [] && Draining(edges, ids, inDegree, taken, queue)
    requires Draining(edges, ids, inDegree', taken + [queue[0]], queue[1..] + added)
    requires k < |taken| + |queue| + |added|
    ensures
      var all := taken + [queue[0]] + (queue[1..] + added);
      && FreeAt(edges, all, k, |taken| + 1)
      && (FreeAt(edges, all, k, |taken|) <==> k < |taken| + |queue|)
  {
    var known, all := taken + queue, taken + [queue[0]] + (queue[1..] + added);
    assert all == known + added;
    assert all[k] in ToSet(all) && all[k] in all;
    DrainingIsFree(edges, ids, inDegree, taken, queue, all, k);
    DrainingIsFree(edges, ids, inDegree', taken + [queue[0]], queue[1..] + added, all, k);
    forall i | 0 <= i < |known| && k >= |known| ensures known[i] != all[k] {
      assert all[i] == known[i];
    }
  }

  lemma {:induction false} ReadyInOrder(keys: seq<string>, inDegree: map<string, int>)
    ensures forall i :: 0 <= i < |ReadyIds(keys, inDegree)| ==> ReadyIds(keys, inDegree)[i] in keys
    ensures forall i, j :: 0 <= i < j < |ReadyIds(keys, inDegree)| ==>
      OccursBefore(keys, ReadyIds(keys, inDegree)[i], ReadyIds(keys, inDegree)[j])
  {
    if keys != [] {
      var n := |keys| - 1;
      var ready, before := ReadyIds(keys, inDegree), ReadyIds(keys[..n], inDegree);
      ReadyInOrder(keys[..n], inDegree);
      forall i, j | 0 <= i < j < |ready| ensures OccursBefore(keys, ready[i], ready[j]) {
        if j < |before| {
          assert OccursBefore(keys[..n], before[i], before[j]);
          var a, b :| 0 <= a < b < n && keys[..n][a] == ready[i] && keys[..n][b] == ready[j];
          assert keys[a] == ready[i] && keys[b] == ready[j];
        } else {
          var a :| 0 <= a < n && keys[..n][a] == before[i];
          assert keys[a] == ready[i] && keys[n] == ready[j];
        }
      }
    }
  }

  lemma ReadyIsFree(edges: seq<Edge>, ids: set<string>, keys: seq<string>, inDegree: map<string, int>, k: nat)
    requires Draining(edges, ids, inDegree, [], ReadyIds(keys, inDegree)) && k < |ReadyIds(keys, inDegree)|
    ensures FreeAt(edges, ReadyIds(keys, inDegree), k, 0)
  {
    var all := ReadyIds(keys, inDegree);
    assert [] + all == all;
    assert all[k] in ToSet(all);
    DrainingIsFree(edges, ids, inDegree, [], all, all, k);
  }

  lemma StartIsFair(edges: seq<Edge>, ids: set<string>, keys: seq<string>, inDegree: map<string, int>)
    requires Draining(edges, ids, inDegree, [], ReadyIds(keys, inDegree))
    ensures IsFair(edges, keys, [] + ReadyIds(keys, inDegree), 0)
  {
    hide Draining, FreeAt, OccursBefore, ReadyIds;
    var all := ReadyIds(keys, inDegree);
    assert [] + all == all;
    ReadyInOrder(keys, inDegree);
    forall k | 0 <= k < |all| ensures FreeAt(edges, all, k, 0) {
      ReadyIsFree(edges, ids, keys, inDegree, k);
    }
  }

  lemma NoneEnqueued(list: seq<string>)
    ensures EnqueuedBy(list, 0, [])
  {
  }

  // Kahn's loop. What is left over waits, each id of it, for another id of it.
  method Drain(ghost edges: seq<Edge>, ids: set<string>, keys: seq<string>,
               inDegree0: map<string, int>, dependents: map<string, seq<string>>)
      returns (taken: seq<string>)
    requires forall e :: e in edges ==> e.0 in ids && e.1 in ids
    requires TablesFor(edges, ids, inDegree0, dependents)
    requires Distinct(keys) && ToSet(keys) == ids
    ensures Distinct(taken) && ToSet(taken) <= ids
    ensures DependenciesFirst(edges, taken)
    ensures Stuck(edges, ids - ToSet(taken))
    ensures IsFair(edges, keys, taken, |taken|)
  {
    hide Draining, CountingDown, IsFair, EnqueuedBy, Stuck, DependenciesFirst;
    var inDegree := inDegree0;
    taken := [];
    var queue := ReadyIds(keys, inDegree);
    StartDraining(edges, ids, keys, inDegree, dependents);
    StartIsFair(edges, ids, keys, inDegree);
    while queue != []
      invariant Draining(edges, ids, inDegree, taken, queue)
      invariant IsFair(edges, keys, taken + queue, |taken|)
      decreases ids - ToSet(taken)
    {
      TakeFirst(edges, ids, inDegree, taken, queue);
      var d := queue[0];
      ghost var before, waiting, added := inDegree, queue, [];
      queue := queue[1..];
      NoneEnqueued(dependents[d]);
      for n := 0 to |dependents[d]|
        invariant CountingDown(edges, ids, inDegree, taken, d, n, queue)
        invariant queue == waiting[1..] + added && EnqueuedBy(dependents[d], n, added)
      {
        OneMoreEnqueued(dependents[d], n, added);
        ghost var uncounted := queue;
        inDegree, queue := CountDownOne(edges, ids, inDegree, taken, d, n, queue, dependents[d][n]);
        added := if queue == uncounted then added else added + [dependents[d][n]];
      }
      TurnDone(edges, ids, inDegree, taken, d, queue);
      FairTurn(edges, ids, keys, before, inDegree, taken, waiting, added);
      taken := taken + [d];
    }
    assert taken + [] == taken;
    LeftOversWait(edges, ids, inDegree, taken);
  }

  // ----- plan order -----

  lemma {:induction false} DependentsJoin(edges: seq<Edge>, more: seq<Edge>, d: string)
    ensures Dependents(edges + more, d) == Dependents(edges, d) + Dependents(more, d)
  {
    if more == [] {
      assert edges + more == edges;
    } else {
      var n := |more| - 1;
      DependentsJoin(edges, more[..n], d);
      assert (edges + more)[..|edges| + n] == edges + more[..n];
      assert Dependents(edges, d) + (Dependents(more[..n], d) + if more[n].0 == d then [more[n].1] else [])
          == Dependents(edges, d) + Dependents(more[..n], d) + if more[n].0 == d then [more[n].1] else [];
    }
  }

  lemma {:induction false} DependentsOfOne(id: string, dependencies: seq<string>, known: set<string>, d: string)
    ensures forall x :: x in Dependents(EdgesOf(id, dependencies, known), d) ==> x == id
  {
    forall x | x in Dependents(EdgesOf(id, dependencies, known), d) ensures x == id {
      DependentsAreEdges(EdgesOf(id, dependencies, known), d, x);
      EdgesOfAre(id, dependencies, known, (d, x));
    }
  }

  // The goals stand in an adjacency list in the order of the plan.
  lemma {:induction false} DependentsInPlan(goals: seq<SubGoal>, known: set<string>, d: string, a: nat, b: nat)
    requires a < b < |Dependents(EdgesWithin(goals, known), d)|
    ensures
      var list := Dependents(EdgesWithin(goals, known), d);
      list[a] in GoalIds(goals) && list[b] in GoalIds(goals) &&
      (list[a] == list[b] || OccursBefore(GoalIds(goals), list[a], list[b]))
  {
    var list := Dependents(EdgesWithin(goals, known), d);
    var n := |goals| - 1;
    var g, front := goals[n], goals[..n];
    var before, last := Dependents(EdgesWithin(front, known), d), Dependents(EdgesOf(g.id, g.dependencies, known), d);
    DependentsJoin(EdgesWithin(front, known), EdgesOf(g.id, g.dependencies, known), d);
    DependentsOfOne(g.id, g.dependencies, known, d);
    assert list == before + last;
    assert GoalIds(goals) == GoalIds(front) + [g.id];
    if b < |before| {
      DependentsInPlan(front, known, d, a, b);
      if list[a] != list[b] {
        var i, j :| 0 <= i < j < n && GoalIds(front)[i] == list[a] && GoalIds(front)[j] == list[b];
        assert GoalIds(goals)[i] == list[a] && GoalIds(goals)[j] == list[b];
      }
    } else {
      assert list[b] in last && GoalIds(goals)[n] == g.id;
      if a < |before| {
        ListedIsGoal(front, known, d, a);
        var i :| 0 <= i < n && GoalIds(front)[i] == list[a];
        assert GoalIds(goals)[i] == list[a] && GoalIds(goals)[n] == list[b];
      } else {
        assert list[a] in last;
      }
    }
  }

  lemma ListedIsGoal(goals: seq<SubGoal>, known: set<string>, d: string, a: nat)
    requires a < |Dependents(EdgesWithin(goals, known), d)|
    ensures Dependents(EdgesWithin(goals, known), d)[a] in GoalIds(goals)
  {
    var x := Dependents(EdgesWithin(goals, known), d)[a];
    DependentsAreEdges(EdgesWithin(goals, known), d, x);
    EdgesWithinAre(goals, known, (d, x));
    var g :| g in goals && DependsOnKnown(g, known, (d, x));
    var i :| 0 <= i < |goals| && goals[i] == g;
    assert GoalIds(goals)[i] == x;
  }

  lemma {:induction false} KeysInPlan(goals: seq<SubGoal>, a: nat, b: nat)
    requires a < b < |KeyOrder(goals)|
    ensures OccursBefore(GoalIds(goals), KeyOrder(goals)[a], KeyOrder(goals)[b])
  {
    var n := |goals| - 1;
    var keys, before := KeyOrder(goals), KeyOrder(goals[..n]);
    assert GoalIds(goals) == GoalIds(goals[..n]) + [goals[n].id];
    if b < |before| {
      KeysInPlan(goals[..n], a, b);
      var i, j :| 0 <= i < j < n && GoalIds(goals[..n])[i] == keys[a] && GoalIds(goals[..n])[j] == keys[b];
      assert GoalIds(goals)[i] == keys[a] && GoalIds(goals)[j] == keys[b];
    } else {
      KeyOrderIsIdSet(goals[..n]);
      assert before[a] in before;
      var g :| g in goals[..n] && g.id == keys[a];
      var i :| 0 <= i < n && goals[..n][i] == g;
      assert GoalIds(goals)[i] == keys[a] && GoalIds(goals)[n] == keys[b];
    }
  }

  // An id that becomes free no later than another comes no later, and of two that become free at the
  // same moment the one that stands first in the plan comes first.
  ghost predicate KeepsPlanOrder(goals: seq<SubGoal>, edges: seq<Edge>, ids: seq<string>) {
    forall i, j :: 0 <= i < j < |ids| ==>
      && (forall p :: 0 <= p <= |ids| && FreeAt(edges, ids, j, p) ==> FreeAt(edges, ids, i, p))
      && ((exists p :: 0 <= p <= |ids| && FreeAt(edges, ids, i, p) && !FreeAt(edges, ids, j, p))
          || OccursBefore(GoalIds(goals), ids[i], ids[j]))
  }

  lemma FairKeepsPlanOrder(goals: seq<SubGoal>, ids: seq<string>)
    requires IsFair(Edges(goals), KeyOrder(goals), ids, |ids|) && Distinct(ids)
    ensures KeepsPlanOrder(goals, Edges(goals), ids)
  {
    hide FreeAt;
    var edges, keys := Edges(goals), KeyOrder(goals);
    forall i, j | 0 <= i < j < |ids|
      ensures (exists p :: 0 <= p <= |ids| && FreeAt(edges, ids, i, p) && !FreeAt(edges, ids, j, p))
        || OccursBefore(GoalIds(goals), ids[i], ids[j])
    {
      assert InTurn(edges, keys, ids, |ids|, i, j);
      if a, b :| 0 <= a < b < |keys| && keys[a] == ids[i] && keys[b] == ids[j] {
        KeysInPlan(goals, a, b);
      } else if d :| OccursBefore(Dependents(edges, d), ids[i], ids[j]) {
        var list := Dependents(edges, d);
        var a, b :| 0 <= a < b < |list| && list[a] == ids[i] && list[b] == ids[j];
        DependentsInPlan(goals, IdSet(goals), d, a, b);
      }
    }
  }

  // ----- the sort -----

  ghost function Cyclic(goals: seq<SubGoal>, edges: seq<Edge>): seq<SubGoal> {
    if goals == [] then []
    else
      var g := goals[|goals| - 1];
      Cyclic(goals[..|goals| - 1], edges) + if LeadsIntoCycle(edges, g.id) then [g] else []
  }

  ghost function Acyclic(goals: seq<SubGoal>, edges: seq<Edge>): seq<SubGoal> {
    if goals == [] then []
    else
      var g := goals[|goals| - 1];
      Acyclic(goals[..|goals| - 1], edges) + if LeadsIntoCycle(edges, g.id) then [] else [g]
  }

  // One goal for every id that leads into no cycle, each after all it depends on.
  ghost predicate SortedPart(goals: seq<SubGoal>, placed: seq<SubGoal>) {
    && Distinct(GoalIds(placed))
    && DependenciesFirst(Edges(goals), GoalIds(placed))
    && (forall g :: g in placed ==> g.id in LastById(goals) && g == LastById(goals)[g.id])
    && (forall id :: id in GoalIds(placed) <==> id in IdSet(goals) && !LeadsIntoCycle(Edges(goals), id))
  }

  ghost predicate IsExecutionOrder(goals: seq<SubGoal>, order: seq<SubGoal>) {
    var tail := Cyclic(goals, Edges(goals));
    && |tail| <= |order|
    && order[|order| - |tail|..] == tail
    && SortedPart(goals, order[..|order| - |tail|])
  }

  lemma EdgesStayKnown(goals: seq<SubGoal>)
    ensures forall e :: e in Edges(goals) ==> e.0 in IdSet(goals) && e.1 in IdSet(goals)
  {
    forall e | e in Edges(goals) ensures e.0 in IdSet(goals) && e.1 in IdSet(goals) {
      EdgesWithinAre(goals, IdSet(goals), e);
    }
  }

  lemma TakenIffAcyclic(edges: seq<Edge>, ids: set<string>, taken: seq<string>, id: string)
    requires Distinct(taken) && DependenciesFirst(edges, taken) && Stuck(edges, ids - ToSet(taken))
    requires id in ids
    ensures id in taken <==> !LeadsIntoCycle(edges, id)
  {
    if id in taken {
      OrderedIdsLeadIntoNoCycle(edges, taken, id);
    } else {
      StuckIdsLeadIntoCycles(edges, ids - ToSet(taken), id);
    }
  }

  method Place(byId: map<string, SubGoal>, taken: seq<string>) returns (order: seq<SubGoal>)
    requires forall id :: id in taken ==> id in byId && byId[id].id == id
    ensures GoalIds(order) == taken
    ensures forall g :: g in order ==> g.id in byId && g == byId[g.id]
  {
    order := [];
    for i := 0 to |taken|
      invariant GoalIds(order) == taken[..i]
      invariant forall g :: g in order ==> g.id in byId && g == byId[g.id]
    {
      assert taken[i] in byId;
      order := order + [byId[taken[i]]];
    }
  }

  method AppendUnsorted(goals: seq<SubGoal>, ghost edges: seq<Edge>, placed: seq<SubGoal>) returns (order: seq<SubGoal>)
    requires forall g :: g in goals ==> (g.id in GoalIds(placed) <==> !LeadsIntoCycle(edges, g.id))
    ensures order == placed + Cyclic(goals, edges)
  {
    var sortedIds := set g | g in placed :: g.id;
    forall id ensures id in sortedIds <==> id in GoalIds(placed) {
      if id in sortedIds {
        var k :| 0 <= k < |placed| && placed[k].id == id;
        assert GoalIds(placed)[k] == id;
      }
    }
    order := placed;
    for i := 0 to |goals|
      invariant order == placed + Cyclic(goals[..i], edges)
    {
      assert goals[..i + 1][..i] == goals[..i];
      assert goals[i] in goals;
      if goals[i].id !in sortedIds {
        order := order + [goals[i]];
      }
    }
    assert goals[..|goals|] == goals;
  }

  method TopologicalSort(goals: seq<SubGoal>) returns (order: seq<SubGoal>)
    ensures IsExecutionOrder(goals, order)
    ensures KeepsPlanOrder(goals, Edges(goals), GoalIds(order)[..|order| - |Cyclic(goals, Edges(goals))|])
  {
    hide IsFair, KeepsPlanOrder, FreeAt, LeadsIntoCycle, Cyclic, KeyOrder, EdgesWithin, Stuck;
    hide DependenciesFirst, TablesFor;
    ghost var edges := Edges(goals);
    KeyOrderIsIdSet(goals);
    EdgesStayKnown(goals);
    var ids := set g | g in goals :: g.id;
    var byId := LastById(goals);
    var inDegree, dependents := BuildTables(goals, ids);
    var taken := Drain(edges, ids, KeyOrder(goals), inDegree, dependents);
    assert forall id :: id in taken ==> id in ToSet(taken);
    var placed := Place(byId, taken);
    forall id | id in ids ensures id in taken <==> !LeadsIntoCycle(edges, id) {
      TakenIffAcyclic(edges, ids, taken, id);
    }
    order := AppendUnsorted(goals, edges, placed);
    assert order[..|placed|] == placed;
    FairKeepsPlanOrder(goals, taken);
    assert GoalIds(order)[..|placed|] == taken;
  }

  // ----- what the order is good for -----

  ghost predicate NoneLeadsIntoCycle(goals: seq<SubGoal>, edges: seq<Edge>) {
    forall g :: g in goals ==> !LeadsIntoCycle(edges, g.id)
  }

  // On goals without dependency cycles the order is topological from end to end.
  lemma AcyclicGoalsAreFullySorted(goals: seq<SubGoal>, order: seq<SubGoal>)
    requires IsExecutionOrder(goals, order) && NoneLeadsIntoCycle(goals, Edges(goals))
    ensures Distinct(GoalIds(order)) && DependenciesFirst(Edges(goals), GoalIds(order))
    ensures ToSet(GoalIds(order)) == IdSet(goals)
  {
    NoCyclicGoals(goals, Edges(goals));
    assert order[..|order|] == order;
  }

  lemma {:induction false} NoCyclicGoals(goals: seq<SubGoal>, edges: seq<Edge>)
    requires NoneLeadsIntoCycle(goals, edges)
    ensures Cyclic(goals, edges) == []
  {
    if goals != [] {
      assert forall g :: g in goals[..|goals| - 1] ==> g in goals;
      assert goals[|goals| - 1] in goals;
      NoCyclicGoals(goals[..|goals| - 1], edges);
    }
  }

  lemma {:induction false} AcyclicAre(goals: seq<SubGoal>, edges: seq<Edge>)
    ensures forall g :: g in Acyclic(goals, edges) <==> g in goals && !LeadsIntoCycle(edges, g.id)
  {
    if goals != [] {
      var front, g := goals[..|goals| - 1], goals[|goals| - 1];
      AcyclicAre(front, edges);
      assert forall h :: h in goals <==> h in front || h == g by {
        assert goals == front + [g];
      }
    }
  }

  lemma OneMoreGoal(front: seq<SubGoal>, g: SubGoal, edges: seq<Edge>)
    ensures Acyclic(front + [g], edges) == Acyclic(front, edges) + if LeadsIntoCycle(edges, g.id) then [] else [g]
    ensures Cyclic(front + [g], edges) == Cyclic(front, edges) + if LeadsIntoCycle(edges, g.id) then [g] else []
  {
    hide LeadsIntoCycle;
    assert (front + [g])[..|front|] == front;
  }

  lemma {:induction false} SplitByCycles(goals: seq<SubGoal>, edges: seq<Edge>)
    ensures multiset(goals) == multiset(Acyclic(goals, edges)) + multiset(Cyclic(goals, edges))
  {
    if goals != [] {
      var front, g := goals[..|goals| - 1], goals[|goals| - 1];
      hide Acyclic, Cyclic, LeadsIntoCycle;
      SplitByCycles(front, edges);
      OneMoreGoal(front, g, edges);
      assert goals == front + [g];
    }
  }

  // The order consists of goals of the list.
  lemma OrderGoalsAreGoals(goals: seq<SubGoal>, order: seq<SubGoal>)
    requires IsExecutionOrder(goals, order)
    ensures forall k :: 0 <= k < |order| ==> order[k] in goals
  {
    var tail := Cyclic(goals, Edges(goals));
    var placed := order[..|order| - |tail|];
    KeyOrderIsIdSet(goals);
    CyclicGoalsAreGoals(goals, Edges(goals));
    forall k | 0 <= k < |order| ensures order[k] in goals {
      if k < |placed| {
        assert order[k] == placed[k] && placed[k] in placed;
      } else {
        assert order[k] == tail[k - |placed|];
      }
    }
  }

  lemma {:induction false} CyclicGoalsAreGoals(goals: seq<SubGoal>, edges: seq<Edge>)
    ensures forall k :: 0 <= k < |Cyclic(goals, edges)| ==> Cyclic(goals, edges)[k] in goals
  {
    if goals != [] {
      CyclicGoalsAreGoals(goals[..|goals| - 1], edges);
      assert goals == goals[..|goals| - 1] + [goals[|goals| - 1]];
    }
  }

  // No goal of an id that could be sorted shares its id with another.
  ghost predicate SortableIdsUnique(goals: seq<SubGoal>) {
    Distinct(GoalIds(Acyclic(goals, Edges(goals))))
  }

  lemma DistinctIdsDistinctGoals(goals: seq<SubGoal>)
    requires Distinct(GoalIds(goals))
    ensures forall g :: multiset(goals)[g] <= 1
    ensures forall g, h :: g in goals && h in goals && g.id == h.id ==> g == h
  {
    forall i, j | 0 <= i < j < |goals| ensures goals[i] != goals[j] && goals[i].id != goals[j].id {
      assert GoalIds(goals)[i] != GoalIds(goals)[j];
    }
    DistinctCountsOnce(goals);
  }

  lemma SameGoalsOnce(a: seq<SubGoal>, b: seq<SubGoal>)
    requires Distinct(GoalIds(a)) && Distinct(GoalIds(b))
    requires forall g :: g in a <==> g in b
    ensures multiset(a) == multiset(b)
  {
    DistinctIdsDistinctGoals(a);
    DistinctIdsDistinctGoals(b);
    forall g ensures multiset(a)[g] == multiset(b)[g] {
      assert g in a <==> multiset(a)[g] > 0;
      assert g in b <==> multiset(b)[g] > 0;
    }
  }

  lemma PermutedIdsStayDistinct(a: seq<SubGoal>, b: seq<SubGoal>)
    requires Distinct(GoalIds(a)) && multiset(a) == multiset(b)
    ensures Distinct(GoalIds(b))
  {
    DistinctIdsDistinctGoals(a);
    forall i, j | 0 <= i < j < |b| ensures GoalIds(b)[i] != GoalIds(b)[j] {
      assert b[i] in multiset(b) && b[j] in multiset(b);
      if b[i] == b[j] {
        CountsTwice(b, i, j);
      }
    }
  }

  // The order is a permutation of the goals exactly when no sortable id is used twice:
  // of two sortable goals with one id, only the later one is executed.
  lemma PermutationIffSortableIdsUnique(goals: seq<SubGoal>, order: seq<SubGoal>)
    requires IsExecutionOrder(goals, order)
    ensures multiset(order) == multiset(goals) <==> SortableIdsUnique(goals)
  {
    var tail := Cyclic(goals, Edges(goals));
    var placed := order[..|order| - |tail|];
    assert order == placed + tail;
    PermutationIffPlacedUnique(goals, placed);
  }

  lemma PermutationIffPlacedUnique(goals: seq<SubGoal>, placed: seq<SubGoal>)
    requires SortedPart(goals, placed)
    ensures multiset(placed + Cyclic(goals, Edges(goals))) == multiset(goals) <==> SortableIdsUnique(goals)
  {
    var edges := Edges(goals);
    assert multiset(placed + Cyclic(goals, edges)) == multiset(placed) + multiset(Cyclic(goals, edges));
    assert multiset(goals) == multiset(Acyclic(goals, edges)) + multiset(Cyclic(goals, edges)) by {
      SplitByCycles(goals, edges);
    }
    CommonPartCancels(multiset(placed), multiset(Acyclic(goals, edges)), multiset(Cyclic(goals, edges)));
    PlacedIffUnique(goals, placed);
  }

  lemma CommonPartCancels<T>(a: multiset<T>, b: multiset<T>, common: multiset<T>)
    ensures a + common == b + common <==> a == b
  {
    if a + common == b + common {
      assert a == (a + common) - common == (b + common) - common == b;
    }
  }

  lemma PlacedIffUnique(goals: seq<SubGoal>, placed: seq<SubGoal>)
    requires SortedPart(goals, placed)
    ensures multiset(placed) == multiset(Acyclic(goals, Edges(goals))) <==> SortableIdsUnique(goals)
  {
    var sortable := Acyclic(goals, Edges(goals));
    if multiset(placed) == multiset(sortable) {
      PermutedIdsStayDistinct(placed, sortable);
    }
    if SortableIdsUnique(goals) {
      PlacedGoalsAreSortable(goals, placed);
      SameGoalsOnce(placed, sortable);
    }
  }

  lemma PlacedGoalsAreSortable(goals: seq<SubGoal>, placed: seq<SubGoal>)
    requires SortedPart(goals, placed) && SortableIdsUnique(goals)
    ensures forall g :: g in placed <==> g in Acyclic(goals, Edges(goals))
  {
    var edges := Edges(goals);
    KeyOrderIsIdSet(goals);
    AcyclicAre(goals, edges);
    DistinctIdsDistinctGoals(Acyclic(goals, edges));
    forall g ensures g in placed <==> g in Acyclic(goals, edges) {
      if g in placed {
        var k :| 0 <= k < |placed| && placed[k] == g;
        assert GoalIds(placed)[k] == g.id;
      }
      if g in Acyclic(goals, edges) {
        var k :| 0 <= k < |placed| && GoalIds(placed)[k] == g.id;
        assert placed[k] in placed && placed[k].id == g.id;
        assert placed[k] in Acyclic(goals, edges);
      }
    }
  }

  // Unique ids, as the goals' documentation promises them, are enough.
  lemma UniqueIdsGivePermutation(goals: seq<SubGoal>, order: seq<SubGoal>)
    requires IsExecutionOrder(goals, order) && Distinct(GoalIds(goals))
    ensures multiset(order) == multiset(goals)
  {
    AcyclicIdsStayDistinct(goals, Edges(goals));
    PermutationIffSortableIdsUnique(goals, order);
  }

  lemma AcyclicGoalIsAmong(goals: seq<SubGoal>, edges: seq<Edge>, i: nat) returns (k: nat)
    requires i < |Acyclic(goals, edges)|
    ensures k < |goals| && goals[k] == Acyclic(goals, edges)[i]
  {
    SplitByCycles(goals, edges);
    var g := Acyclic(goals, edges)[i];
    assert g in multiset(Acyclic(goals, edges));
    assert g in multiset(goals);
    k :| 0 <= k < |goals| && goals[k] == g;
  }

  lemma {:induction false} AcyclicIdsStayDistinct(goals: seq<SubGoal>, edges: seq<Edge>)
    requires Distinct(GoalIds(goals))
    ensures Distinct(GoalIds(Acyclic(goals, edges)))
  {
    if goals != [] {
      var front, g := goals[..|goals| - 1], goals[|goals| - 1];
      assert GoalIds(front) == GoalIds(goals)[..|front|];
      AcyclicIdsStayDistinct(front, edges);
      var kept := Acyclic(front, edges);
      forall i | 0 <= i < |kept| ensures kept[i].id != g.id {
        var k := AcyclicGoalIsAmong(front, edges, i);
        assert GoalIds(goals)[k] != GoalIds(goals)[|goals| - 1];
      }
      forall i, j | 0 <= i < j < |kept| ensures kept[i].id != kept[j].id {
        assert GoalIds(kept)[i] != GoalIds(kept)[j];
      }
    }
  }

  // Of two equally long lists without repetition whose elements stand in the same order, both have
  // an element at the same position.
  lemma PositionKept(a: seq<string>, b: seq<string>, i: nat, k: nat)
    requires Distinct(b) && |a| == |b| && i < |a| && k < |b| && b[k] == a[i]
    requires forall j, l :: 0 <= j < l < |a| ==> OccursBefore(b, a[j], a[l])
    ensures k == i
  {
    NotEarlier(a, b, i, k);
    NotLater(a, b, i, k);
  }

  lemma {:induction false} NotEarlier(a: seq<string>, b: seq<string>, i: nat, k: nat)
    requires Distinct(b) && i < |a| && k < |b| && b[k] == a[i]
    requires forall j, l :: 0 <= j < l < |a| ==> OccursBefore(b, a[j], a[l])
    ensures k >= i
  {
    if i > 0 {
      assert OccursBefore(b, a[i - 1], a[i]);
      var x, y :| 0 <= x < y < |b| && b[x] == a[i - 1] && b[y] == a[i];
      NotEarlier(a, b, i - 1, x);
    }
  }

  lemma {:induction false} NotLater(a: seq<string>, b: seq<string>, i: nat, k: nat)
    requires Distinct(b) && i < |a| && k < |b| && b[k] == a[i]
    requires forall j, l :: 0 <= j < l < |a| ==> OccursBefore(b, a[j], a[l])
    ensures |b| - k >= |a| - i
    decreases |a| - i
  {
    if i + 1 < |a| {
      assert OccursBefore(b, a[i], a[i + 1]);
      var x, y :| 0 <= x < y < |b| && b[x] == a[i] && b[y] == a[i + 1];
      NotLater(a, b, i + 1, y);
    }
  }

  // Goals with distinct ids and no known dependencies are executed in the order of the plan.
  lemma IndependentGoalsKeepOrder(goals: seq<SubGoal>, order: seq<SubGoal>)
    requires Distinct(GoalIds(goals)) && Edges(goals) == [] && IsExecutionOrder(goals, order)
    requires KeepsPlanOrder(goals, Edges(goals), GoalIds(order)[..|order| - |Cyclic(goals, Edges(goals))|])
    ensures order == goals
  {
    hide IsExecutionOrder;
    var ids, given := GoalIds(order), GoalIds(goals);
    forall g | g in goals ensures !LeadsIntoCycle([], g.id) {
      assert Stuck([], {});
      TakenIffAcyclic([], {g.id}, [g.id], g.id);
    }
    NoCyclicGoals(goals, []);
    assert ids[..|order|] == ids;
    UniqueIdsGivePermutation(goals, order);
    PermutationSameElements(order, goals);
    forall i, j | 0 <= i < j < |ids| ensures OccursBefore(given, ids[i], ids[j]) {
      assert forall p :: 0 <= p <= |ids| ==> FreeAt([], ids, j, p);
    }
    forall i | 0 <= i < |order| ensures order[i] == goals[i] {
      assert order[i] in goals;
      var k :| 0 <= k < |goals| && goals[k] == order[i];
      assert given[k] == ids[i];
      PositionKept(ids, given, i, k);
    }
  }

  // Two goals with one id and nothing to wait for: the first is never executed.
  lemma DuplicateIdLosesGoal(first: SubGoal, second: SubGoal, order: seq<SubGoal>)
    requires first.id == second.id && first.dependencies == [] && second.dependencies == []
    requires IsExecutionOrder([first, second], order)
    ensures order == [second]
  {
    var goals := [first, second];
    assert goals[..1] == [first];
    EdgesStayKnown(goals);
    forall e ensures e !in Edges(goals) {
      EdgesWithinAre(goals, IdSet(goals), e);
    }
    forall g | g in goals ensures !LeadsIntoCycle(Edges(goals), g.id) {
      assert Stuck(Edges(goals), {});
      TakenIffAcyclic(Edges(goals), {g.id}, [g.id], g.id);
    }
    AcyclicGoalsAreFullySorted(goals, order);
    NoCyclicGoals(goals, Edges(goals));
    assert order[..|order|] == order;
    assert IdSet(goals) == {first.id};
    assert first.id in ToSet(GoalIds(order));
    forall x | x in GoalIds(order) ensures x in {first.id} {
      assert x in ToSet(GoalIds(order));
    }
    DistinctFits(GoalIds(order), {first.id});
    assert order[0] in order;
  }

  // The dependency a cyclic id waits for is cyclic too.
  lemma CyclicWaitsForCyclic(edges: seq<Edge>, id: string) returns (d: string)
    requires LeadsIntoCycle(edges, id)
    ensures (d, id) in edges && LeadsIntoCycle(edges, d)
  {
    var walk :| IsDependencyWalk(edges, walk) && walk[0] == id && !Distinct(walk);
    var i, j :| 0 <= i < j < |walk| && walk[i] == walk[j];
    d := walk[1];
    assert (walk[1], walk[0]) in edges;
    WalkSuffix(edges, walk, 1);
    if i > 0 {
      assert walk[1..][i - 1] == walk[1..][j - 1];
    } else {
      var round := walk[1..j + 1] + [d];
      forall k | 0 <= k < |round| - 1 ensures (round[k + 1], round[k]) in edges {
        assert (walk[k + 1], walk[k]) in edges;
        if k + 2 <= j {
          assert (walk[k + 2], walk[k + 1]) in edges;
        }
      }
      assert round[0] == round[|round| - 1];
    }
  }
}
