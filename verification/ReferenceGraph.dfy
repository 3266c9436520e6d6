/** ReferenceGraph: who calls whom, who is affected by a change, and the graph's serial form. */
module ReferenceGraph {
  import opened Options
  import opened Sequences

  // (caller, callee)
  type Call = (string, string)

  // Symbols with their files, and the calls between them in the order they were added.
  datatype Graph = Graph(nodes: map<string, string>, calls: seq<Call>)

  ghost predicate IsGraph(g: Graph) {
    Distinct(g.calls) && forall e :: e in g.calls ==> e.0 in g.nodes && e.1 in g.nodes
  }

  // The direct callers of a symbol.
  function Callers(calls: seq<Call>, symbol: string): seq<string> {
    if calls == [] then []
    else
      var e := calls[|calls| - 1];
      Callers(calls[..|calls| - 1], symbol) + if e.1 == symbol then [e.0] else []
  }

  lemma {:induction false} CallersAre(calls: seq<Call>, symbol: string)
    ensures forall u :: u in Callers(calls, symbol) <==> (u, symbol) in calls
    ensures Distinct(calls) ==> Distinct(Callers(calls, symbol))
  {
    if calls != [] {
      var front, e := calls[..|calls| - 1], calls[|calls| - 1];
      CallersAre(front, symbol);
      assert calls == front + [e];
      if Distinct(calls) {
        assert e !in front;
      }
    }
  }

  // ----- distance -----

  // The symbols with a call path of at most k calls to `target`.
  function Within(g: Graph, target: string, k: nat): set<string> {
    if k == 0 then {target}
    else
      var near := Within(g, target, k - 1);
      near + set e | e in g.calls && e.1 in near :: e.0
  }

  ghost predicate IsCallPath(g: Graph, path: seq<string>, target: string) {
    && |path| > 0 && path[|path| - 1] == target
    && forall i :: 0 <= i < |path| - 1 ==> (path[i], path[i + 1]) in g.calls
  }

  // Within is the textbook notion: the end of a path that is short enough.
  lemma {:induction false} WithinIffPath(g: Graph, target: string, u: string, k: nat)
    ensures u in Within(g, target, k) <==> exists path :: IsCallPath(g, path, target) && path[0] == u && |path| <= k + 1
  {
    if u in Within(g, target, k) {
      var path := PathWithin(g, target, u, k);
    }
    forall path | IsCallPath(g, path, target) && path[0] == u && |path| <= k + 1 ensures u in Within(g, target, k) {
      PathIsWithin(g, path, target, k);
    }
  }

  lemma {:induction false} PathWithin(g: Graph, target: string, u: string, k: nat) returns (path: seq<string>)
    requires u in Within(g, target, k)
    ensures IsCallPath(g, path, target) && path[0] == u && |path| <= k + 1
    decreases k
  {
    if k == 0 {
      path := [u];
    } else if u in Within(g, target, k - 1) {
      path := PathWithin(g, target, u, k - 1);
    } else {
      var e :| e in g.calls && e.1 in Within(g, target, k - 1) && e.0 == u;
      var rest := PathWithin(g, target, e.1, k - 1);
      path := [u] + rest;
      assert (u, rest[0]) == e;
    }
  }

  lemma {:induction false} PathIsWithin(g: Graph, path: seq<string>, target: string, k: nat)
    requires IsCallPath(g, path, target) && |path| <= k + 1
    ensures path[0] in Within(g, target, k)
    decreases k
  {
    if |path| == 1 {
      WithinGrows(g, target, 0, k);
    } else {
      var rest := path[1..];
      forall i | 0 <= i < |rest| - 1 ensures (rest[i], rest[i + 1]) in g.calls {
        assert (path[i + 1], path[i + 2]) in g.calls;
      }
      PathIsWithin(g, rest, target, k - 1);
      var e := (path[0], path[1]);
      assert e in g.calls && e.1 in Within(g, target, k - 1);
    }
  }

  lemma {:induction false} WithinGrows(g: Graph, target: string, j: nat, k: nat)
    requires j <= k
    ensures Within(g, target, j) <= Within(g, target, k)
    decreases k
  {
    if j < k {
      WithinGrows(g, target, j, k - 1);
    }
  }

  ghost predicate AtDistance(g: Graph, target: string, u: string, d: nat) {
    u in Within(g, target, d) && (d > 0 ==> u !in Within(g, target, d - 1))
  }

  lemma {:induction false} HasDistance(g: Graph, target: string, u: string, k: nat) returns (d: nat)
    requires u in Within(g, target, k)
    ensures d <= k && AtDistance(g, target, u, d)
  {
    if k > 0 && u in Within(g, target, k - 1) {
      d := HasDistance(g, target, u, k - 1);
    } else {
      d := k;
    }
  }

  lemma DistanceBounds(g: Graph, target: string, u: string, d: nat, k: nat)
    requires AtDistance(g, target, u, d) && u in Within(g, target, k)
    ensures d <= k
  {
    if k < d {
      WithinGrows(g, target, k, d - 1);
    }
  }

  ghost predicate Reaches(g: Graph, u: string, target: string) {
    exists k: nat :: u in Within(g, target, k)
  }

  // ----- the breadth-first search -----

  type Entry = (string, nat)

  predicate Deeper(limit: Option<int>, depth: int) {
    limit.Some? && depth > limit.value
  }

  // The callers of the current symbol that the search has not met.
  function Unvisited(callers: seq<string>, visited: set<string>): seq<string> {
    if callers == [] then []
    else
      var last := callers[|callers| - 1];
      Unvisited(callers[..|callers| - 1], visited) + if last in visited then [] else [last]
  }

  lemma {:induction false} UnvisitedAre(callers: seq<string>, visited: set<string>)
    ensures forall u :: u in Unvisited(callers, visited) <==> u in callers && u !in visited
    ensures Distinct(callers) ==> Distinct(Unvisited(callers, visited))
  {
    if callers != [] {
      var front, last := callers[..|callers| - 1], callers[|callers| - 1];
      UnvisitedAre(front, visited);
      assert callers == front + [last];
      if Distinct(callers) {
        assert last !in front;
      }
    }
  }

  function Entries(symbols: seq<string>, depth: nat): seq<Entry> {
    seq(|symbols|, i requires 0 <= i < |symbols| => (symbols[i], depth))
  }

  ghost predicate IsMet(met: seq<Entry>, u: string) {
    exists i :: 0 <= i < |met| && met[i].0 == u
  }

  ghost predicate AllMet(met: seq<Entry>, symbols: set<string>) {
    forall u :: u in symbols ==> IsMet(met, u)
  }

  ghost predicate CallersMet(g: Graph, met: seq<Entry>, symbol: string) {
    forall u :: (u, symbol) in g.calls ==> IsMet(met, u)
  }

  // `met` lists the target and everything found so far in the order of discovery, with distances.
  ghost predicate Measured(g: Graph, target: string, met: seq<Entry>) {
    && met != [] && met[0] == (target, 0)
    && forall i {:trigger AtDistance(g, target, met[i].0, met[i].1)} :: 0 <= i < |met| ==>
       AtDistance(g, target, met[i].0, met[i].1)
  }

  ghost predicate InOrder(met: seq<Entry>) {
    forall i, j :: 0 <= i < j < |met| ==> met[i].1 <= met[j].1 && met[i].0 != met[j].0
  }

  ghost predicate WithinLimit(limit: Option<int>, met: seq<Entry>) {
    forall i :: 1 <= i < |met| ==> !Deeper(limit, met[i].1)
  }

  // The first `expanded` entries have left the queue, and their callers have been met.
  ghost predicate Expanded(g: Graph, limit: Option<int>, met: seq<Entry>, expanded: nat)
    requires expanded <= |met|
  {
    && (expanded < |met| ==> forall i :: 0 <= i < |met| ==> met[i].1 <= met[expanded].1 + 1)
    && (forall i :: 0 <= i < expanded && !Deeper(limit, met[i].1 + 1) ==> CallersMet(g, met, met[i].0))
  }

  ghost predicate Searching(g: Graph, target: string, limit: Option<int>, met: seq<Entry>, expanded: nat) {
    && expanded <= |met|
    && Measured(g, target, met) && InOrder(met) && WithinLimit(limit, met) && Expanded(g, limit, met, expanded)
  }

  // A symbol whose callee is nearer than what remains to be expanded has been met.
  lemma CallerOfNearerIsMet(g: Graph, target: string, limit: Option<int>, met: seq<Entry>, expanded: nat, k: nat,
                            e: Call)
    requires expanded <= |met| && Measured(g, target, met) && InOrder(met) && Expanded(g, limit, met, expanded)
    requires k > 0 && !Deeper(limit, k) && (expanded < |met| ==> k <= met[expanded].1)
    requires e in g.calls && e.1 in Within(g, target, k - 1) && IsMet(met, e.1)
    ensures IsMet(met, e.0)
  {
    var i :| 0 <= i < |met| && met[i].0 == e.1;
    DepthOfMet(g, target, met, i, k - 1);
    CallersOfNearer(g, limit, met, expanded, k, i, e.0);
  }

  lemma DepthOfMet(g: Graph, target: string, met: seq<Entry>, i: nat, k: nat)
    requires Measured(g, target, met) && i < |met| && met[i].0 in Within(g, target, k)
    ensures met[i].1 <= k
  {
    assert AtDistance(g, target, met[i].0, met[i].1);
    DistanceBounds(g, target, met[i].0, met[i].1, k);
  }

  // What lies nearer than the head of the queue has left it.
  lemma CallersOfNearer(g: Graph, limit: Option<int>, met: seq<Entry>, expanded: nat, k: nat, i: nat, u: string)
    requires expanded <= |met| && InOrder(met) && Expanded(g, limit, met, expanded)
    requires !Deeper(limit, k) && (expanded < |met| ==> k <= met[expanded].1)
    requires i < |met| && met[i].1 < k && (u, met[i].0) in g.calls
    ensures IsMet(met, u)
  {
    assert i < expanded;
    assert CallersMet(g, met, met[i].0);
  }

  // Everything nearer than what remains to be expanded has been met.
  lemma {:induction false} NearerIsMet(g: Graph, target: string, limit: Option<int>, met: seq<Entry>, expanded: nat,
                                       k: nat)
    requires Searching(g, target, limit, met, expanded) && (k == 0 || !Deeper(limit, k))
    requires expanded < |met| ==> k <= met[expanded].1
    ensures AllMet(met, Within(g, target, k))
  {
    if k == 0 {
      assert met[0].0 == target;
    } else {
      NearerIsMet(g, target, limit, met, expanded, k - 1);
      forall u | u in Within(g, target, k) ensures IsMet(met, u) {
        if u !in Within(g, target, k - 1) {
          var e :| e in g.calls && e.1 in Within(g, target, k - 1) && e.0 == u;
          CallerOfNearerIsMet(g, target, limit, met, expanded, k, e);
        }
      }
    }
  }

  lemma MetStaysMet(met: seq<Entry>, found: seq<string>, depth: nat, u: string)
    ensures IsMet(met + Entries(found, depth), u) <==> IsMet(met, u) || u in found
  {
    var met' := met + Entries(found, depth);
    if IsMet(met, u) {
      var i :| 0 <= i < |met| && met[i].0 == u;
      assert met'[i].0 == u;
    }
    if u in found {
      var k :| 0 <= k < |found| && found[k] == u;
      assert met'[|met| + k].0 == u;
    }
    if IsMet(met', u) {
      var i :| 0 <= i < |met'| && met'[i].0 == u;
      if i >= |met| {
        assert found[i - |met|] == u;
      } else {
        assert met[i].0 == u;
      }
    }
  }

  lemma OneCallFurther(g: Graph, target: string, current: string, depth: nat, u: string)
    requires AtDistance(g, target, current, depth) && (u, current) in g.calls && u !in Within(g, target, depth)
    ensures AtDistance(g, target, u, depth + 1)
  {
    var e := (u, current);
    assert e in g.calls && e.1 in Within(g, target, depth);
  }

  lemma FoundIsFurther(g: Graph, target: string, limit: Option<int>, met: seq<Entry>, expanded: nat, found: seq<string>,
                       u: string)
    requires Searching(g, target, limit, met, expanded) && expanded < |met|
    requires AreNewCallers(g, limit, met, met[expanded], found) && u in found
    ensures AtDistance(g, target, u, met[expanded].1 + 1)
  {
    NearerIsMet(g, target, limit, met, expanded, met[expanded].1);
    OneCallFurther(g, target, met[expanded].0, met[expanded].1, u);
  }

  lemma MeasuredGrows(g: Graph, target: string, met: seq<Entry>, found: seq<string>, depth: nat)
    requires Measured(g, target, met) && forall k :: 0 <= k < |found| ==> AtDistance(g, target, found[k], depth)
    ensures Measured(g, target, met + Entries(found, depth))
  {
    var met' := met + Entries(found, depth);
    forall i | 0 <= i < |met'| ensures AtDistance(g, target, met'[i].0, met'[i].1) {
      if i >= |met| {
        assert met'[i] == (found[i - |met|], depth);
      }
    }
  }

  lemma FoundAreMeasured(g: Graph, target: string, limit: Option<int>, met: seq<Entry>, expanded: nat,
                         found: seq<string>)
    requires Searching(g, target, limit, met, expanded) && expanded < |met|
    requires AreNewCallers(g, limit, met, met[expanded], found)
    ensures Measured(g, target, met + Entries(found, met[expanded].1 + 1))
  {
    forall k | 0 <= k < |found| ensures AtDistance(g, target, found[k], met[expanded].1 + 1) {
      FoundIsFurther(g, target, limit, met, expanded, found, found[k]);
    }
    MeasuredGrows(g, target, met, found, met[expanded].1 + 1);
  }

  lemma FoundKeepOrder(met: seq<Entry>, depth: nat, found: seq<string>)
    requires InOrder(met) && Distinct(found)
    requires forall i :: 0 <= i < |met| ==> met[i].1 <= depth + 1
    requires forall u :: u in found ==> !IsMet(met, u)
    ensures InOrder(met + Entries(found, depth + 1))
  {
    var met' := met + Entries(found, depth + 1);
    forall i, j | 0 <= i < j < |met'| ensures met'[i].1 <= met'[j].1 && met'[i].0 != met'[j].0 {
      if i < |met| <= j {
        assert found[j - |met|] in found && !IsMet(met, met'[j].0);
      }
    }
  }

  lemma FoundCompleteTurn(g: Graph, limit: Option<int>, met: seq<Entry>, expanded: nat, found: seq<string>)
    requires expanded < |met| && Expanded(g, limit, met, expanded) && InOrder(met)
    requires !Deeper(limit, met[expanded].1 + 1) ==>
      forall u :: (u, met[expanded].0) in g.calls ==> u in found || IsMet(met, u)
    ensures Expanded(g, limit, met + Entries(found, met[expanded].1 + 1), expanded + 1)
  {
    var met' := met + Entries(found, met[expanded].1 + 1);
    forall i | 0 <= i < expanded + 1 && !Deeper(limit, met'[i].1 + 1) ensures CallersMet(g, met', met'[i].0) {
      if i < expanded {
        assert CallersMet(g, met, met[i].0);
      }
      forall u | (u, met'[i].0) in g.calls ensures IsMet(met', u) {
        MetStaysMet(met, found, met[expanded].1 + 1, u);
      }
    }
  }

  ghost predicate AreNewCallers(g: Graph, limit: Option<int>, met: seq<Entry>, current: Entry, found: seq<string>) {
    && Distinct(found) && (Deeper(limit, current.1 + 1) ==> found == [])
    && (forall u :: u in found ==> (u, current.0) in g.calls && !IsMet(met, u))
    && (!Deeper(limit, current.1 + 1) ==> forall u :: (u, current.0) in g.calls ==> u in found || IsMet(met, u))
  }

  lemma TurnKeepsSearching(g: Graph, target: string, limit: Option<int>, met: seq<Entry>, expanded: nat,
                           found: seq<string>)
    requires Searching(g, target, limit, met, expanded) && expanded < |met|
    requires AreNewCallers(g, limit, met, met[expanded], found)
    ensures Searching(g, target, limit, met + Entries(found, met[expanded].1 + 1), expanded + 1)
  {
    FoundAreMeasured(g, target, limit, met, expanded, found);
    FoundKeepOrder(met, met[expanded].1, found);
    FoundCompleteTurn(g, limit, met, expanded, found);
    FoundWithinLimit(limit, met, met[expanded].1, found);
  }

  lemma FoundWithinLimit(limit: Option<int>, met: seq<Entry>, depth: nat, found: seq<string>)
    requires WithinLimit(limit, met) && (Deeper(limit, depth + 1) ==> found == [])
    ensures WithinLimit(limit, met + Entries(found, depth + 1))
  {
  }

  // Exactly the symbols the documentation asks for: not the target, with a call path to it and, if
  // there is a limit, with one that makes at most that many calls.
  ghost predicate IsCaller(g: Graph, target: string, limit: Option<int>, u: string) {
    u != target &&
    match limit
    case None => Reaches(g, u, target)
    case Some(depth) => depth >= 0 && u in Within(g, target, depth)
  }

  lemma SearchIsComplete(g: Graph, target: string, limit: Option<int>, met: seq<Entry>, u: string)
    requires Searching(g, target, limit, met, |met|)
    ensures IsCaller(g, target, limit, u) <==> u != target && IsMet(met, u)
  {
    if IsCaller(g, target, limit, u) {
      var k: nat :| u in Within(g, target, k) && (limit.Some? ==> k == limit.value);
      NearerIsMet(g, target, limit, met, |met|, k);
    }
    if u != target && IsMet(met, u) {
      var i :| 0 <= i < |met| && met[i].0 == u;
      assert AtDistance(g, target, met[i].0, met[i].1) && i > 0;
      if limit.Some? {
        WithinGrows(g, target, met[i].1, limit.value);
      }
    }
  }

  // Each with its distance, the nearer ones first.
  ghost predicate AreByDistance(g: Graph, target: string, result: seq<string>, distance: seq<nat>) {
    && |distance| == |result|
    && (forall i :: 0 <= i < |result| ==> AtDistance(g, target, result[i], distance[i]))
    && (forall i, j :: 0 <= i < j < |result| ==> distance[i] <= distance[j])
  }

  class ReferenceGraph {
    var nodes: map<string, string>
    var calls: seq<Call>

    constructor ()
      ensures View() == Graph(map[], []) && Valid()
    {
      nodes, calls := map[], [];
    }

    function View(): Graph
      reads this
    {
      Graph(nodes, calls)
    }

    ghost predicate Valid()
      reads this
    {
      IsGraph(View())
    }

    method AddSymbol(symbol: string, file: string)
      requires Valid()
      modifies this
      ensures Valid() && View() == WithSymbol(old(View()), symbol, file)
      ensures nodes == old(nodes)[symbol := file] && calls == old(calls)
    {
      nodes := nodes[symbol := file];
    }

    // A call between unknown symbols is dropped; a known call is not added twice.
    method AddCall(caller: string, callee: string)
      requires Valid()
      modifies this
      ensures Valid() && View() == WithCall(old(View()), caller, callee)
      ensures nodes == old(nodes)
      ensures forall e :: e in calls <==>
        e in old(calls) || (e == (caller, callee) && caller in nodes && callee in nodes)
    {
      if caller in nodes && callee in nodes {
        if (caller, callee) !in calls {
          calls := calls + [(caller, callee)];
        }
      }
    }

    method RemoveCall(caller: string, callee: string)
      requires Valid()
      modifies this
      ensures Valid() && nodes == old(nodes)
      ensures forall e :: e in calls <==> e in old(calls) && e != (caller, callee)
    {
      var keep: seq<Call> := [];
      for i := 0 to |calls|
        invariant Distinct(keep)
        invariant forall e :: e in keep <==> e in calls[..i] && e != (caller, callee)
      {
        assert calls[i] !in calls[..i];
        if calls[i] != (caller, callee) {
          keep := keep + [calls[i]];
        }
      }
      calls := keep;
    }

    method RemoveSymbol(symbol: string)
      requires Valid()
      modifies this
      ensures Valid() && nodes == old(nodes) - {symbol}
      ensures forall e :: e in calls <==> e in old(calls) && e.0 != symbol && e.1 != symbol
    {
      var keep: seq<Call> := [];
      for i := 0 to |calls|
        invariant Distinct(keep)
        invariant forall e :: e in keep <==> e in calls[..i] && e.0 != symbol && e.1 != symbol
      {
        assert calls[i] !in calls[..i];
        if calls[i].0 != symbol && calls[i].1 != symbol {
          keep := keep + [calls[i]];
        }
      }
      calls := keep;
      nodes := nodes - {symbol};
    }

    method ToDict() returns (data: Serial)
      requires Valid()
      ensures IsSerialOf(data, View())
    {
      var written: seq<(string, string)> := [];
      var left := nodes.Keys;
      while left != {}
        invariant left <= nodes.Keys
        invariant forall n :: n in written <==> n.0 in nodes.Keys - left && nodes[n.0] == n.1
      {
        var symbol :| symbol in left;
        left := left - {symbol};
        written := written + [(symbol, nodes[symbol])];
      }
      data := Serial(written, calls);
    }

    // The search, returning with each caller its distance.
    method GetTransitiveCallers(target: string, limit: Option<int>)
        returns (result: seq<string>, ghost distance: seq<nat>)
      requires Valid()
      ensures Distinct(result)
      ensures target in nodes && limit.None? ==>
        forall u :: u in result <==> u != target && Reaches(View(), u, target)
      ensures target in nodes && limit.Some? ==>
        forall u :: u in result <==> u != target && limit.value >= 0 && u in Within(View(), target, limit.value)
      ensures target !in nodes ==> result == []
      ensures AreByDistance(View(), target, result, distance)
    {
      hide Searching, AtDistance, Reaches;
      if target !in nodes {
        return [], [];
      }
      ghost var g := View();
      var visited := {target};
      var queue: seq<Entry> := [(target, 0)];
      result := [];
      ghost var met: seq<Entry> := [(target, 0)];
      ghost var expanded := 0;
      SearchStarts(g, target, limit);
      while queue != []
        invariant InSearch(g, target, limit, met, expanded, queue, result, visited)
        decreases nodes.Keys - visited, |queue|
      {
        var found := NewCallers(g, limit, met, queue[0], visited);
        SearchGoesOn(g, target, limit, met, expanded, queue, result, visited, found);
        var entries := Entries(found, queue[0].1 + 1);
        met, expanded, queue, result, visited :=
          met + entries, expanded + 1, queue[1..] + entries, result + found, visited + ToSet(found);
      }
      distance := ResultIsComplete(g, target, limit, met, expanded, result, visited);
    }

    method GetImpactSet(modified: set<string>) returns (impact: set<string>)
      requires Valid()
      ensures forall u :: u in impact <==> IsAffected(View(), modified, u)
    {
      impact := {};
      var left := modified;
      while left != {}
        invariant left <= modified
        invariant forall u :: u in impact <==> IsAffected(View(), modified - left, u)
      {
        var m :| m in left;
        if m in nodes {
          var callers, _ := GetTransitiveCallers(m, None);
          AffectedByOneMore(View(), modified - left, m, impact, callers);
          impact := impact + ToSet(callers);
        } else {
          AffectedByUnknown(View(), modified - left, m);
        }
        left := left - {m};
        assert modified - left == modified - (left + {m}) + {m};
      }
      assert modified - {} == modified;
    }

    method NewCallers(ghost g: Graph, limit: Option<int>, ghost met: seq<Entry>, current: Entry, visited: set<string>)
        returns (found: seq<string>)
      requires g == View() && Valid()
      requires forall u :: u in visited <==> IsMet(met, u)
      ensures AreNewCallers(g, limit, met, current, found)
      ensures forall u :: u in found ==> u !in visited && u in nodes
    {
      var callers := Callers(calls, current.0);
      CallersAre(calls, current.0);
      found := [];
      for i := 0 to |callers|
        invariant found == if Deeper(limit, current.1 + 1) then [] else Unvisited(callers[..i], visited)
      {
        assert callers[..i + 1][..i] == callers[..i];
        if callers[i] !in visited {
          if Deeper(limit, current.1 + 1) {
            continue;
          }
          found := found + [callers[i]];
        }
      }
      assert callers[..|callers|] == callers;
      UnvisitedAre(callers, visited);
      forall u | u in found ensures u in nodes {
        assert (u, current.0) in g.calls;
      }
    }
  }

  // The visited set and the result list say the same as the list of what has been met.
  ghost predicate Records(met: seq<Entry>, target: string, result: seq<string>, visited: set<string>) {
    && |met| == |result| + 1 && met[0].0 == target
    && (forall i :: 0 <= i < |result| ==> met[i + 1].0 == result[i])
    && (forall u :: u in visited <==> IsMet(met, u))
  }

  lemma RecordsMore(met: seq<Entry>, target: string, result: seq<string>, visited: set<string>, found: seq<string>,
                    depth: nat)
    requires Records(met, target, result, visited)
    ensures Records(met + Entries(found, depth), target, result + found, visited + ToSet(found))
  {
    forall u ensures u in visited + ToSet(found) <==> IsMet(met + Entries(found, depth), u) {
      MetStaysMet(met, found, depth, u);
    }
  }

  ghost predicate InSearch(g: Graph, target: string, limit: Option<int>, met: seq<Entry>, expanded: nat,
                           queue: seq<Entry>, result: seq<string>, visited: set<string>)
  {
    && Searching(g, target, limit, met, expanded) && queue == met[expanded..]
    && Records(met, target, result, visited) && visited <= g.nodes.Keys
  }

  lemma SearchGoesOn(g: Graph, target: string, limit: Option<int>, met: seq<Entry>, expanded: nat,
                     queue: seq<Entry>, result: seq<string>, visited: set<string>, found: seq<string>)
    requires InSearch(g, target, limit, met, expanded, queue, result, visited) && queue != []
    requires AreNewCallers(g, limit, met, queue[0], found)
    requires forall u :: u in found ==> u !in visited && u in g.nodes
    ensures
      var entries := Entries(found, queue[0].1 + 1);
      InSearch(g, target, limit, met + entries, expanded + 1, queue[1..] + entries,
               result + found, visited + ToSet(found))
    ensures if found == [] then visited + ToSet(found) == visited
            else g.nodes.Keys - (visited + ToSet(found)) < g.nodes.Keys - visited
  {
    TurnKeepsSearching(g, target, limit, met, expanded, found);
    RecordsMore(met, target, result, visited, found, queue[0].1 + 1);
    QueueMoves(met, expanded, queue, Entries(found, queue[0].1 + 1));
    VisitedGrows(g, visited, found);
  }

  lemma QueueMoves(met: seq<Entry>, expanded: nat, queue: seq<Entry>, entries: seq<Entry>)
    requires expanded <= |met| && queue == met[expanded..] && queue != []
    ensures queue[0] == met[expanded] && queue[1..] + entries == (met + entries)[expanded + 1..]
  {
  }

  lemma VisitedGrows(g: Graph, visited: set<string>, found: seq<string>)
    requires visited <= g.nodes.Keys
    requires forall u :: u in found ==> u !in visited && u in g.nodes
    ensures visited + ToSet(found) <= g.nodes.Keys
    ensures if found == [] then visited + ToSet(found) == visited
            else g.nodes.Keys - (visited + ToSet(found)) < g.nodes.Keys - visited
  {
    if found != [] {
      assert found[0] in ToSet(found) && found[0] !in visited;
    }
  }

  lemma SearchStarts(g: Graph, target: string, limit: Option<int>)
    requires target in g.nodes
    ensures InSearch(g, target, limit, [(target, 0)], 0, [(target, 0)], [], {target})
  {
    var met: seq<Entry> := [(target, 0)];
    assert met[0].0 == target;
  }

  lemma ResultIsComplete(g: Graph, target: string, limit: Option<int>, met: seq<Entry>, expanded: nat,
                         result: seq<string>, visited: set<string>)
      returns (distance: seq<nat>)
    requires InSearch(g, target, limit, met, expanded, [], result, visited)
    ensures Distinct(result) && AreByDistance(g, target, result, distance)
    ensures forall u :: u in result <==> IsCaller(g, target, limit, u)
  {
    distance := seq(|result|, i requires 0 <= i < |result| => met[i + 1].1);
    assert expanded == |met|;
    ResultInOrder(met, target, result, visited, distance);
    forall u ensures u in result <==> IsCaller(g, target, limit, u) {
      SearchIsComplete(g, target, limit, met, u);
      ResultIsMet(met, target, result, visited, u);
    }
    ResultIsMeasured(g, met, target, result, visited, distance);
  }

  lemma ResultIsMeasured(g: Graph, met: seq<Entry>, target: string, result: seq<string>, visited: set<string>,
                         distance: seq<nat>)
    requires Records(met, target, result, visited) && Measured(g, target, met)
    requires |distance| == |result| && forall i :: 0 <= i < |result| ==> distance[i] == met[i + 1].1
    ensures forall i :: 0 <= i < |result| ==> AtDistance(g, target, result[i], distance[i])
  {
    forall i | 0 <= i < |result| ensures AtDistance(g, target, result[i], distance[i]) {
      assert met[i + 1].0 == result[i];
    }
  }

  lemma ResultIsMet(met: seq<Entry>, target: string, result: seq<string>, visited: set<string>, u: string)
    requires Records(met, target, result, visited) && InOrder(met)
    ensures u in result <==> u != target && IsMet(met, u)
  {
    if u in result {
      var k :| 0 <= k < |result| && result[k] == u;
      assert met[k + 1].0 == u && met[0].0 != met[k + 1].0;
    }
    if u != target && IsMet(met, u) {
      var i :| 0 <= i < |met| && met[i].0 == u;
      assert result[i - 1] == u;
    }
  }

  lemma ResultInOrder(met: seq<Entry>, target: string, result: seq<string>, visited: set<string>, distance: seq<nat>)
    requires Records(met, target, result, visited) && InOrder(met)
    requires |distance| == |result| && forall i :: 0 <= i < |result| ==> distance[i] == met[i + 1].1
    ensures Distinct(result)
    ensures forall i, j :: 0 <= i < j < |result| ==> distance[i] <= distance[j]
  {
    forall i, j | 0 <= i < j < |result| ensures result[i] != result[j] && distance[i] <= distance[j] {
      assert met[i + 1].0 == result[i] && met[j + 1].0 == result[j];
    }
  }

  // ----- impact sets -----

  // u transitively calls some other symbol that was modified.
  ghost predicate IsAffected(g: Graph, modified: set<string>, u: string) {
    exists m :: m in modified && m in g.nodes && u != m && Reaches(g, u, m)
  }

  lemma AffectedByOneMore(g: Graph, modified: set<string>, m: string, impact: set<string>, callers: seq<string>)
    requires m in g.nodes
    requires forall u :: u in impact <==> IsAffected(g, modified, u)
    requires forall u :: u in callers <==> IsCaller(g, m, None, u)
    ensures forall u :: u in impact + ToSet(callers) <==> IsAffected(g, modified + {m}, u)
  {
    forall u ensures u in impact + ToSet(callers) <==> IsAffected(g, modified + {m}, u) {
      assert IsCaller(g, m, None, u) <==> u != m && Reaches(g, u, m);
    }
  }

  lemma AffectedByUnknown(g: Graph, modified: set<string>, m: string)
    requires m !in g.nodes
    ensures forall u :: IsAffected(g, modified, u) <==> IsAffected(g, modified + {m}, u)
  {
  }

  lemma ImpactIsMonotone(g: Graph, fewer: set<string>, more: set<string>, u: string)
    requires fewer <= more && IsAffected(g, fewer, u)
    ensures IsAffected(g, more, u)
  {
  }

  // A caller of something affected is affected itself, unless it is one of the modified symbols.
  lemma ImpactIsClosed(g: Graph, modified: set<string>, e: Call)
    requires e in g.calls && IsAffected(g, modified, e.1)
    ensures IsAffected(g, modified, e.0) || e.0 in modified
  {
    var m :| m in modified && m in g.nodes && e.1 != m && Reaches(g, e.1, m);
    var k: nat :| e.1 in Within(g, m, k);
    assert e.0 in Within(g, m, k + 1);
  }

  // u calls m through a chain of at least one call.
  ghost predicate CallsTransitively(g: Graph, u: string, m: string) {
    exists e :: e in g.calls && e.0 == u && Reaches(g, e.1, m)
  }

  lemma OtherCallersStepFirst(g: Graph, u: string, m: string)
    requires u != m
    ensures Reaches(g, u, m) <==> CallsTransitively(g, u, m)
  {
    if Reaches(g, u, m) {
      var k: nat :| u in Within(g, m, k);
      var d := HasDistance(g, m, u, k);
      assert d > 0;
      var e :| e in g.calls && e.1 in Within(g, m, d - 1) && e.0 == u;
      assert Reaches(g, e.1, m);
    }
    if CallsTransitively(g, u, m) {
      var e :| e in g.calls && e.0 == u && Reaches(g, e.1, m);
      var k: nat :| e.1 in Within(g, m, k);
      assert u in Within(g, m, k + 1);
    }
  }

  // What the impact set is documented to hold: the symbols that transitively call a modified one.
  ghost predicate IsDocumented(g: Graph, modified: set<string>, u: string) {
    exists m :: m in modified && m in g.nodes && CallsTransitively(g, u, m)
  }

  // The impact set leaves out calls of a symbol to itself: u is in it exactly when it transitively
  // calls a modified symbol other than u.
  lemma AffectedIffCallsAnother(g: Graph, modified: set<string>, u: string)
    ensures IsAffected(g, modified, u) <==>
      exists m :: m in modified && m in g.nodes && m != u && CallsTransitively(g, u, m)
  {
    forall m | m != u ensures Reaches(g, u, m) <==> CallsTransitively(g, u, m) {
      OtherCallersStepFirst(g, u, m);
    }
    if IsAffected(g, modified, u) {
      var m :| m in modified && m in g.nodes && u != m && Reaches(g, u, m);
      assert CallsTransitively(g, u, m);
    }
  }

  // A modified symbol that transitively calls itself and no other modified symbol.
  ghost predicate OnlyCallsItself(g: Graph, modified: set<string>, m: string) {
    && m in modified && m in g.nodes && CallsTransitively(g, m, m)
    && forall o :: o in modified && o in g.nodes && o != m ==> !CallsTransitively(g, m, o)
  }

  // The impact set of a call is the documented one exactly when none of the modified symbols is
  // recursive without calling another of them.
  lemma ImpactIsDocumentedIff(g: Graph, modified: set<string>)
    ensures (forall u :: IsAffected(g, modified, u) <==> IsDocumented(g, modified, u)) <==>
      forall m :: m in modified ==> !OnlyCallsItself(g, modified, m)
  {
    forall u
      ensures (IsAffected(g, modified, u) <==> IsDocumented(g, modified, u)) <==> !OnlyCallsItself(g, modified, u)
    {
      AffectedIffCallsAnother(g, modified, u);
    }
  }

  // The smallest case: one modified function that calls itself, and an empty impact set.
  lemma RecursiveFunctionIsMissed(f: string, file: string)
    ensures
      var g := Graph(map[f := file], [(f, f)]);
      IsGraph(g) && IsDocumented(g, {f}, f) && forall u :: !IsAffected(g, {f}, u)
  {
    var g := Graph(map[f := file], [(f, f)]);
    var e := (f, f);
    assert e in g.calls && f in Within(g, f, 0);
    assert Reaches(g, e.1, f) && CallsTransitively(g, f, f);
    forall u ensures !IsAffected(g, {f}, u) {
      AffectedIffCallsAnother(g, {f}, u);
      assert u != f ==> !CallsTransitively(g, u, f);
    }
  }

  // ----- the serial form -----

  datatype Serial = Serial(nodes: seq<(string, string)>, edges: seq<Call>)

  function AddAllSymbols(g: Graph, nodes: seq<(string, string)>): Graph {
    if nodes == [] then g
    else WithSymbol(AddAllSymbols(g, nodes[..|nodes| - 1]), nodes[|nodes| - 1].0, nodes[|nodes| - 1].1)
  }

  function AddAllCalls(g: Graph, edges: seq<Call>): Graph {
    if edges == [] then g
    else WithCall(AddAllCalls(g, edges[..|edges| - 1]), edges[|edges| - 1].0, edges[|edges| - 1].1)
  }

  method FromDict(data: Serial) returns (graph: ReferenceGraph)
    ensures fresh(graph) && graph.Valid()
    ensures graph.View() == AddAllCalls(AddAllSymbols(Graph(map[], []), data.nodes), data.edges)
  {
    graph := new ReferenceGraph();
    for i := 0 to |data.nodes|
      invariant fresh(graph) && graph.Valid()
      invariant graph.View() == AddAllSymbols(Graph(map[], []), data.nodes[..i])
    {
      assert data.nodes[..i + 1][..i] == data.nodes[..i];
      graph.AddSymbol(data.nodes[i].0, data.nodes[i].1);
    }
    assert data.nodes[..|data.nodes|] == data.nodes;
    ghost var start := graph.View();
    for i := 0 to |data.edges|
      invariant fresh(graph) && graph.Valid()
      invariant graph.View() == AddAllCalls(start, data.edges[..i])
    {
      assert data.edges[..i + 1][..i] == data.edges[..i];
      graph.AddCall(data.edges[i].0, data.edges[i].1);
    }
    assert data.edges[..|data.edges|] == data.edges;
  }

  // What to_dict writes: every node with its file and every call once, in whatever order the
  // graph library iterates over them.
  ghost predicate IsSerialOf(data: Serial, g: Graph) {
    && (forall n :: n in data.nodes <==> n.0 in g.nodes && g.nodes[n.0] == n.1)
    && (forall e :: e in data.edges <==> e in g.calls)
  }

  lemma {:induction false} SymbolsAdded(g: Graph, nodes: seq<(string, string)>, files: map<string, string>)
    requires g.nodes == map[] && forall n :: n in nodes ==> n.0 in files && files[n.0] == n.1
    ensures AddAllSymbols(g, nodes).calls == g.calls
    ensures forall x :: x in AddAllSymbols(g, nodes).nodes <==> x in files && (x, files[x]) in nodes
    ensures forall x :: x in AddAllSymbols(g, nodes).nodes ==> AddAllSymbols(g, nodes).nodes[x] == files[x]
  {
    if nodes != [] {
      var front, last := nodes[..|nodes| - 1], nodes[|nodes| - 1];
      assert nodes == front + [last];
      SymbolsAdded(g, front, files);
    }
  }

  lemma {:induction false} CallsAdded(g: Graph, edges: seq<Call>)
    ensures AddAllCalls(g, edges).nodes == g.nodes
    ensures forall e :: e in AddAllCalls(g, edges).calls <==>
      e in g.calls || (e in edges && e.0 in g.nodes && e.1 in g.nodes)
  {
    if edges != [] {
      var front, last := edges[..|edges| - 1], edges[|edges| - 1];
      assert edges == front + [last];
      CallsAdded(g, front);
    }
  }

  // from_dict(to_dict(g)) has the symbols, files and calls of g; only the order in which callers
  // are listed may differ.
  lemma SerialRoundTrip(g: Graph, data: Serial)
    requires IsGraph(g) && IsSerialOf(data, g)
    ensures
      var back := AddAllCalls(AddAllSymbols(Graph(map[], []), data.nodes), data.edges);
      back.nodes == g.nodes && forall e :: e in back.calls <==> e in g.calls
  {
    var empty := Graph(map[], []);
    SymbolsAdded(empty, data.nodes, g.nodes);
    var symbols := AddAllSymbols(empty, data.nodes);
    forall x ensures x in symbols.nodes <==> x in g.nodes {
      if x in g.nodes {
        assert (x, g.nodes[x]) in data.nodes;
      }
    }
    assert symbols.nodes == g.nodes;
    CallsAdded(symbols, data.edges);
  }

  function WithSymbol(g: Graph, symbol: string, file: string): Graph {
    g.(nodes := g.nodes[symbol := file])
  }

  function WithCall(g: Graph, caller: string, callee: string): Graph {
    if caller in g.nodes && callee in g.nodes && (caller, callee) !in g.calls
    then g.(calls := g.calls + [(caller, callee)])
    else g
  }
}
