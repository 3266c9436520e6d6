/** What a run of the scheduler amounts to: the list of phase results it has appended so far,
    and what that list says about the goals. */
module PhaseRuns {
  import opened DependencyGraph
  import opened LongHorizonTypes
  import opened Sequences
  import opened TopologicalSort

  // What the model answers when a goal is executed: an exception, or a text, of which only the
  // facts the scheduler looks at are kept.
  datatype Reply = ChatRaised | Content(empty: bool, markers: nat, marksFailure: bool)

  // The phase result the source builds from a reply.
  function Outcome(id: string, reply: Reply): PhaseResult {
    match reply
    case ChatRaised => PhaseResult(id, false, 0)
    case Content(empty, markers, marksFailure) =>
      PhaseResult(id, !empty && !marksFailure, if markers >= 1 then markers else 1)
  }

  function Executed(results: seq<PhaseResult>): set<string> {
    if results == [] then {} else Executed(results[..|results| - 1]) + {results[|results| - 1].subGoalId}
  }

  function Succeeded(results: seq<PhaseResult>): set<string> {
    if results == [] then {}
    else
      var last := results[|results| - 1];
      Succeeded(results[..|results| - 1]) + if last.success then {last.subGoalId} else {}
  }

  function TotalSteps(results: seq<PhaseResult>): nat {
    if results == [] then 0 else TotalSteps(results[..|results| - 1]) + results[|results| - 1].stepsTaken
  }

  // Every result adds the steps it took.
  lemma {:induction false} StepsAdd(before: seq<PhaseResult>, after: seq<PhaseResult>, r: PhaseResult)
    ensures TotalSteps(before + [r] + after) == TotalSteps(before) + r.stepsTaken + TotalSteps(after)
  {
    if after == [] {
      assert before + [r] + after == before + [r] && (before + [r])[..|before|] == before;
    } else {
      var n := |after| - 1;
      StepsAdd(before, after[..n], r);
      assert (before + [r] + after)[..|before| + 1 + n] == before + [r] + after[..n];
    }
  }

  function Successes(results: seq<PhaseResult>): nat {
    if results == [] then 0
    else Successes(results[..|results| - 1]) + if results[|results| - 1].success then 1 else 0
  }

  // The status a goal has once the given results have been recorded.
  function StatusAfter(results: seq<PhaseResult>, id: string): Status {
    if id in Succeeded(results) then Completed
    else if id in Executed(results) then Failed
    else Pending
  }

  // How often a goal of this id has been executed.
  function Times(results: seq<PhaseResult>, id: string): nat {
    if results == [] then 0
    else Times(results[..|results| - 1], id) + if results[|results| - 1].subGoalId == id then 1 else 0
  }

  // What the model answers each time a goal of an id is executed, and the first time.
  type Replies = (string, nat) -> Reply

  function First(replies: Replies): string -> Reply {
    (id: string) => replies(id, 0)
  }

  predicate DependenciesMet(g: SubGoal, done: set<string>) {
    forall d :: d in g.dependencies ==> d in done
  }

  // Each result belongs to a goal of the list, was produced by the reply to it, and came when
  // everything the goal depends on had succeeded. Goals may share an id.
  ghost predicate IsOrderedRun(goals: seq<SubGoal>, replies: Replies, results: seq<PhaseResult>) {
    if results == [] then true
    else
      var front, last := results[..|results| - 1], results[|results| - 1];
      && IsOrderedRun(goals, replies, front)
      && last == Outcome(last.subGoalId, replies(last.subGoalId, Times(front, last.subGoalId)))
      && exists g :: g in goals && g.id == last.subGoalId && DependenciesMet(g, Succeeded(front))
  }

  // The same with one reply for each id, and no goal executed twice.
  ghost predicate IsGatedRun(goals: seq<SubGoal>, reply: string -> Reply, results: seq<PhaseResult>) {
    if results == [] then true
    else
      var front, last := results[..|results| - 1], results[|results| - 1];
      && IsGatedRun(goals, reply, front)
      && last == Outcome(last.subGoalId, reply(last.subGoalId))
      && last.subGoalId !in Executed(front)
      && exists g :: g in goals && g.id == last.subGoalId && DependenciesMet(g, Succeeded(front))
  }

  predicate Succeeds(reply: string -> Reply, id: string) {
    Outcome(id, reply(id)).success
  }

  // A set of ids that contains every goal whose dependencies it contains and whose phase succeeds.
  ghost predicate IsClosed(goals: seq<SubGoal>, reply: string -> Reply, ids: set<string>) {
    forall g :: g in goals && DependenciesMet(g, ids) && Succeeds(reply, g.id) ==> g.id in ids
  }

  // Every member is there because its dependencies are and its phase succeeds.
  ghost predicate IsSupported(goals: seq<SubGoal>, reply: string -> Reply, ids: set<string>) {
    forall id :: id in ids ==>
      Succeeds(reply, id) && exists g :: g in goals && g.id == id && DependenciesMet(g, ids)
  }

  ghost predicate IsLeastFixpoint(goals: seq<SubGoal>, reply: string -> Reply, ids: set<string>) {
    && IsClosed(goals, reply, ids)
    && IsSupported(goals, reply, ids)
    && forall other :: IsClosed(goals, reply, other) ==> ids <= other
  }

  lemma {:induction false} SucceededAreExecuted(results: seq<PhaseResult>)
    ensures Succeeded(results) <= Executed(results)
  {
    if results != [] {
      SucceededAreExecuted(results[..|results| - 1]);
    }
  }

  // Every completed id belongs to a goal all of whose dependencies are completed.
  ghost predicate IsDependencyClosed(goals: seq<SubGoal>, ids: set<string>) {
    forall id :: id in ids ==> exists g :: g in goals && g.id == id && DependenciesMet(g, ids)
  }

  // Whatever cut the run short, and whatever ids the goals have.
  lemma {:induction false} OrderedRunIsDependencyClosed(goals: seq<SubGoal>, replies: Replies,
                                                        results: seq<PhaseResult>)
    requires IsOrderedRun(goals, replies, results)
    ensures IsDependencyClosed(goals, Succeeded(results))
  {
    if results != [] {
      var front := results[..|results| - 1];
      OrderedRunIsDependencyClosed(goals, replies, front);
      forall id | id in Succeeded(results)
        ensures exists g :: g in goals && g.id == id && DependenciesMet(g, Succeeded(results))
      {
        if id in Succeeded(front) {
          var g :| g in goals && g.id == id && DependenciesMet(g, Succeeded(front));
        }
      }
    }
  }

  lemma {:induction false} TimesIffExecuted(results: seq<PhaseResult>, id: string)
    ensures Times(results, id) > 0 <==> id in Executed(results)
  {
    if results != [] {
      TimesIffExecuted(results[..|results| - 1], id);
    }
  }

  lemma OrderedRunGoesOn(goals: seq<SubGoal>, replies: Replies, results: seq<PhaseResult>, g: SubGoal)
    requires IsOrderedRun(goals, replies, results) && g in goals && DependenciesMet(g, Succeeded(results))
    ensures IsOrderedRun(goals, replies, results + [Outcome(g.id, replies(g.id, Times(results, g.id)))])
  {
    assert (results + [Outcome(g.id, replies(g.id, Times(results, g.id)))])[..|results|] == results;
  }

  lemma {:induction false} OrderedRunOfMore(some: seq<SubGoal>, goals: seq<SubGoal>, replies: Replies,
                                            results: seq<PhaseResult>)
    requires IsOrderedRun(some, replies, results) && forall k :: 0 <= k < |some| ==> some[k] in goals
    ensures IsOrderedRun(goals, replies, results)
  {
    if results != [] {
      var front, last := results[..|results| - 1], results[|results| - 1];
      OrderedRunOfMore(some, goals, replies, front);
      var g :| g in some && g.id == last.subGoalId && DependenciesMet(g, Succeeded(front));
      var k :| 0 <= k < |some| && some[k] == g;
    }
  }

  lemma {:induction false} GatedRunStaysIn(goals: seq<SubGoal>, reply: string -> Reply, results: seq<PhaseResult>,
                                           other: set<string>)
    requires IsGatedRun(goals, reply, results) && IsClosed(goals, reply, other)
    ensures Succeeded(results) <= other
  {
    if results != [] {
      GatedRunStaysIn(goals, reply, results[..|results| - 1], other);
    }
  }

  // Whatever cut the run short, what it completed is closed under taking dependencies.
  lemma {:induction false} GatedRunIsSupported(goals: seq<SubGoal>, reply: string -> Reply, results: seq<PhaseResult>)
    requires IsGatedRun(goals, reply, results)
    ensures IsSupported(goals, reply, Succeeded(results))
  {
    if results != [] {
      var front, last := results[..|results| - 1], results[|results| - 1];
      GatedRunIsSupported(goals, reply, front);
      forall id | id in Succeeded(results)
        ensures Succeeds(reply, id) && exists g :: g in goals && g.id == id && DependenciesMet(g, Succeeded(results))
      {
        if id in Succeeded(front) {
          var g :| g in goals && g.id == id && DependenciesMet(g, Succeeded(front));
        }
      }
    }
  }

  lemma {:induction false} ResultIsOutcome(goals: seq<SubGoal>, replies: Replies, results: seq<PhaseResult>, k: nat)
    requires IsOrderedRun(goals, replies, results) && k < |results|
    ensures var id := results[k].subGoalId; results[k] == Outcome(id, replies(id, Times(results[..k], id)))
  {
    var front := results[..|results| - 1];
    if k < |front| {
      ResultIsOutcome(goals, replies, front, k);
      assert front[..k] == results[..k];
    }
  }

  // A phase succeeds if and only if the call returned a text that is neither empty nor reads as a
  // failure; it counts the step markers of the text, at least one, and none if the call raised.
  // Which reply a result answers is told by how many results of the same id come before it.
  lemma ResultsReadReplies(goals: seq<SubGoal>, replies: Replies, results: seq<PhaseResult>, k: nat)
    requires IsOrderedRun(goals, replies, results) && k < |results|
    ensures
      var r, earlier := results[k], set j | 0 <= j < k && results[j].subGoalId == results[k].subGoalId;
      var reply := replies(r.subGoalId, |earlier|);
      && (r.success <==> reply.Content? && !reply.empty && !reply.marksFailure)
      && r.stepsTaken == (if reply.ChatRaised? then 0 else if reply.markers >= 1 then reply.markers else 1)
  {
    hide IsOrderedRun, Times;
    var id := results[k].subGoalId;
    ResultIsOutcome(goals, replies, results, k);
    TimesCounts(results[..k], id);
    assert (set j | 0 <= j < k && results[j].subGoalId == id) == Positions(results[..k], id);
  }

  // The positions at which a goal of the id was executed.
  function Positions(results: seq<PhaseResult>, id: string): set<nat> {
    set j: nat | j < |results| && results[j].subGoalId == id
  }

  lemma OneMorePosition(front: seq<PhaseResult>, last: PhaseResult, id: string)
    ensures |Positions(front + [last], id)| == |Positions(front, id)| + if last.subGoalId == id then 1 else 0
  {
    if last.subGoalId == id {
      assert Positions(front + [last], id) == Positions(front, id) + {|front|};
    } else {
      assert Positions(front + [last], id) == Positions(front, id);
    }
  }

  lemma {:induction false} TimesCounts(results: seq<PhaseResult>, id: string)
    ensures Times(results, id) == |Positions(results, id)|
  {
    if results != [] {
      hide Positions;
      var front, last := results[..|results| - 1], results[|results| - 1];
      TimesCounts(front, id);
      OneMorePosition(front, last, id);
      assert results == front + [last];
    }
  }

  // What the status of an id says about the one reply it was given.
  lemma {:induction false} StatusReadsReply(goals: seq<SubGoal>, reply: string -> Reply, results: seq<PhaseResult>,
                                            id: string)
    requires IsGatedRun(goals, reply, results)
    ensures StatusAfter(results, id) == Completed ==>
      reply(id).Content? && !reply(id).empty && !reply(id).marksFailure
    ensures StatusAfter(results, id) == Failed ==>
      !(reply(id).Content? && !reply(id).empty && !reply(id).marksFailure)
    ensures StatusAfter(results, id) != Pending ==>
      exists g :: g in goals && g.id == id && DependenciesMet(g, Succeeded(results))
  {
    if results != [] {
      var front, last := results[..|results| - 1], results[|results| - 1];
      StatusReadsReply(goals, reply, front, id);
      SucceededAreExecuted(front);
      if id in Executed(front) {
        var g :| g in goals && g.id == id && DependenciesMet(g, Succeeded(front));
      }
    }
  }

  // With one reply for each id, every result answers that reply.
  lemma {:induction false} GatedResultsReadReplies(goals: seq<SubGoal>, reply: string -> Reply,
                                                   results: seq<PhaseResult>, k: nat)
    requires IsGatedRun(goals, reply, results) && k < |results|
    ensures
      var r, answer := results[k], reply(results[k].subGoalId);
      && (r.success <==> answer.Content? && !answer.empty && !answer.marksFailure)
      && r.stepsTaken == (if answer.ChatRaised? then 0 else if answer.markers >= 1 then answer.markers else 1)
  {
    if k < |results| - 1 {
      GatedResultsReadReplies(goals, reply, results[..|results| - 1], k);
    }
  }

  // No goal is counted twice among the successes.
  lemma {:induction false} SuccessesAreDistinct(goals: seq<SubGoal>, reply: string -> Reply, results: seq<PhaseResult>)
    requires IsGatedRun(goals, reply, results)
    ensures |Succeeded(results)| == Successes(results)
  {
    if results != [] {
      SuccessesAreDistinct(goals, reply, results[..|results| - 1]);
      SucceededAreExecuted(results[..|results| - 1]);
    }
  }

  // ----- the loop over the execution order -----

  // The first `n` goals of the order have been dealt with: exactly those were executed whose
  // dependencies have succeeded by now.
  ghost predicate Settled(order: seq<SubGoal>, n: nat, results: seq<PhaseResult>)
    requires n <= |order|
  {
    && (forall k :: 0 <= k < n ==>
         (order[k].id in Executed(results) <==> DependenciesMet(order[k], Succeeded(results))))
    && (forall k :: n <= k < |order| ==> order[k].id !in Executed(results))
  }

  // The order lets a goal wait only for earlier goals, unless it waits for a cyclic one.
  ghost predicate IsGatedOrder(order: seq<SubGoal>, cyclic: set<string>) {
    && Distinct(GoalIds(order))
    && forall k :: 0 <= k < |order| ==>
         if order[k].id in cyclic then exists d :: d in order[k].dependencies && d in cyclic
         else forall j :: k <= j < |order| ==> order[j].id !in order[k].dependencies
  }

  lemma {:induction false} WaitersNeverRun(order: seq<SubGoal>, cyclic: set<string>, reply: string -> Reply,
                                           results: seq<PhaseResult>)
    requires IsGatedOrder(order, cyclic) && IsGatedRun(order, reply, results)
    ensures Executed(results) !! cyclic
  {
    if results != [] {
      var front, last := results[..|results| - 1], results[|results| - 1];
      WaitersNeverRun(order, cyclic, reply, front);
      SucceededAreExecuted(front);
      var g :| g in order && g.id == last.subGoalId && DependenciesMet(g, Succeeded(front));
      var k :| 0 <= k < |order| && order[k] == g;
    }
  }

  lemma SkippingSettles(order: seq<SubGoal>, n: nat, results: seq<PhaseResult>)
    requires n < |order| && Settled(order, n, results)
    requires !DependenciesMet(order[n], Succeeded(results))
    ensures Settled(order, n + 1, results)
  {
  }

  lemma ExecutingSettles(order: seq<SubGoal>, cyclic: set<string>, n: nat, reply: string -> Reply,
                         results: seq<PhaseResult>)
    requires IsGatedOrder(order, cyclic) && n < |order| && Settled(order, n, results)
    requires IsGatedRun(order, reply, results) && DependenciesMet(order[n], Succeeded(results))
    ensures var more := results + [Outcome(order[n].id, reply(order[n].id))];
      IsGatedRun(order, reply, more) && Settled(order, n + 1, more)
  {
    var id := order[n].id;
    var more := results + [Outcome(id, reply(id))];
    assert more[..|more| - 1] == results;
    assert order[n] in order;
    WaitersNeverRun(order, cyclic, reply, more);
    SucceededAreExecuted(more);
    forall k | 0 <= k < |order| && k != n ensures order[k].id != id {
      assert GoalIds(order)[k] != GoalIds(order)[n];
    }
    forall k | 0 <= k <= n
      ensures order[k].id in Executed(more) <==> DependenciesMet(order[k], Succeeded(more))
    {
      if order[k].id in cyclic {
        var d :| d in order[k].dependencies && d in cyclic;
      } else {
        assert order[n].id !in order[k].dependencies;
      }
    }
  }

  // Once the whole order has been dealt with, what succeeded is the least fixpoint.
  lemma SettledRunIsLeastFixpoint(goals: seq<SubGoal>, order: seq<SubGoal>, reply: string -> Reply,
                                  results: seq<PhaseResult>)
    requires multiset(order) == multiset(goals)
    requires IsGatedRun(order, reply, results) && Settled(order, |order|, results)
    ensures IsLeastFixpoint(goals, reply, Succeeded(results))
  {
    PermutationSameElements(order, goals);
    SameRunOverSameGoals(order, goals, reply, results);
    GatedRunIsSupported(goals, reply, results);
    forall g | g in goals && DependenciesMet(g, Succeeded(results)) && Succeeds(reply, g.id)
      ensures g.id in Succeeded(results)
    {
      assert g in order;
      var k :| 0 <= k < |order| && order[k] == g;
      ExecutedSuccessSucceeded(order, reply, results, g.id);
    }
    forall other | IsClosed(goals, reply, other) ensures Succeeded(results) <= other {
      GatedRunStaysIn(goals, reply, results, other);
    }
  }

  lemma {:induction false} SameRunOverSameGoals(a: seq<SubGoal>, b: seq<SubGoal>, reply: string -> Reply,
                                                results: seq<PhaseResult>)
    requires multiset(a) == multiset(b) && IsGatedRun(a, reply, results)
    ensures IsGatedRun(b, reply, results)
  {
    if results != [] {
      var front, last := results[..|results| - 1], results[|results| - 1];
      SameRunOverSameGoals(a, b, reply, front);
      var g :| g in a && g.id == last.subGoalId && DependenciesMet(g, Succeeded(front));
      assert g in multiset(b);
    }
  }

  lemma {:induction false} ExecutedSuccessSucceeded(goals: seq<SubGoal>, reply: string -> Reply,
                                                    results: seq<PhaseResult>, id: string)
    requires IsGatedRun(goals, reply, results) && id in Executed(results) && Succeeds(reply, id)
    ensures id in Succeeded(results)
  {
    var front, last := results[..|results| - 1], results[|results| - 1];
    if id != last.subGoalId {
      ExecutedSuccessSucceeded(goals, reply, front, id);
    }
  }

  // The sort of the goals is such an order, for goals with unique ids.
  lemma ExecutionOrderIsGated(goals: seq<SubGoal>, order: seq<SubGoal>) returns (cyclic: set<string>)
    requires IsExecutionOrder(goals, order) && Distinct(GoalIds(goals))
    ensures multiset(order) == multiset(goals) && IsGatedOrder(order, cyclic)
    ensures cyclic == set id | id in IdSet(goals) && LeadsIntoCycle(Edges(goals), id)
  {
    UniqueIdsGivePermutation(goals, order);
    PermutedIdsStayDistinct(goals, order);
    var edges := Edges(goals);
    cyclic := set id | id in IdSet(goals) && LeadsIntoCycle(edges, id);
    forall k | 0 <= k < |order|
      ensures if order[k].id in cyclic then exists d :: d in order[k].dependencies && d in cyclic
        else forall j :: k <= j < |order| ==> order[j].id !in order[k].dependencies
    {
      PermutationSameElements(order, goals);
      assert order[k] in goals;
      if order[k].id in cyclic {
        var d := CyclicWaitsForCyclic(edges, order[k].id);
        EdgesStayKnown(goals);
        DependencyOfOwner(goals, order[k], d);
      } else {
        SortedGoalWaitsForEarlier(goals, order, k);
      }
    }
  }

  // With unique ids an edge into a goal's id is one of that goal's dependencies.
  lemma DependencyOfOwner(goals: seq<SubGoal>, g: SubGoal, d: string)
    requires Distinct(GoalIds(goals)) && g in goals && (d, g.id) in Edges(goals)
    ensures d in g.dependencies
  {
    EdgesWithinAre(goals, IdSet(goals), (d, g.id));
    var h :| h in goals && DependsOnKnown(h, IdSet(goals), (d, g.id));
    var i :| 0 <= i < |goals| && goals[i] == g;
    var j :| 0 <= j < |goals| && goals[j] == h;
    assert GoalIds(goals)[i] == GoalIds(goals)[j];
  }

  // No goal from which a dependency cycle can be reached is ever executed.
  lemma {:induction false} CyclicGoalsNeverRun(goals: seq<SubGoal>, reply: string -> Reply, results: seq<PhaseResult>,
                                               id: string)
    requires Distinct(GoalIds(goals)) && IsGatedRun(goals, reply, results) && id in Executed(results)
    ensures !LeadsIntoCycle(Edges(goals), id)
  {
    var front, last := results[..|results| - 1], results[|results| - 1];
    if id in Executed(front) {
      CyclicGoalsNeverRun(goals, reply, front, id);
    } else if LeadsIntoCycle(Edges(goals), id) {
      var g :| g in goals && g.id == last.subGoalId && DependenciesMet(g, Succeeded(front));
      var d := CyclicWaitsForCyclic(Edges(goals), id);
      DependencyOfOwner(goals, g, d);
      SucceededAreExecuted(front);
      CyclicGoalsNeverRun(goals, reply, front, d);
    }
  }

  lemma SortedGoalWaitsForEarlier(goals: seq<SubGoal>, order: seq<SubGoal>, k: nat)
    requires IsExecutionOrder(goals, order) && Distinct(GoalIds(order)) && multiset(order) == multiset(goals)
    requires k < |order| && !LeadsIntoCycle(Edges(goals), order[k].id)
    ensures forall j :: k <= j < |order| ==> order[j].id !in order[k].dependencies
  {
    var edges := Edges(goals);
    var tail := Cyclic(goals, edges);
    var placed := order[..|order| - |tail|];
    PermutationSameElements(order, goals);
    assert k < |placed| by {
      CyclicGoalsAreCyclic(goals, edges);
    }
    forall j | k <= j < |order| ensures order[j].id !in order[k].dependencies {
      var e := (order[j].id, order[k].id);
      assert GoalIds(placed)[k] == order[k].id;
      forall i | 0 <= i < k ensures GoalIds(placed)[i] != order[j].id {
        assert GoalIds(order)[i] != GoalIds(order)[j];
      }
      assert order[j].id !in GoalIds(placed)[..k];
      assert order[j] in goals && order[k] in goals;
      EdgesWithinAre(goals, IdSet(goals), e);
      assert !DependsOnKnown(order[k], IdSet(goals), e);
    }
  }

  lemma {:induction false} CyclicGoalsAreCyclic(goals: seq<SubGoal>, edges: seq<Edge>)
    ensures forall i :: 0 <= i < |Cyclic(goals, edges)| ==> LeadsIntoCycle(edges, Cyclic(goals, edges)[i].id)
  {
    if goals != [] {
      CyclicGoalsAreCyclic(goals[..|goals| - 1], edges);
    }
  }
}
