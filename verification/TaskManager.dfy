/** LongHorizonTaskManager: decompose a goal, execute its sub-goals in dependency order, save a
    checkpoint after each, and report. */
module TaskManager {
  import opened Checkpoints
  import opened DependencyGraph
  import opened LongHorizonTypes
  import opened PhaseRuns
  import opened ProgressTracking
  import opened Sequences
  import opened TopologicalSort

  // Where a call of `_save_checkpoint` may raise: not at all, while writing the file, or while
  // cleaning up after the file has been written and counted.
  datatype SaveFault = NoFault | WriteRaises | CleanupRaises

  // Evaluation and stagnation detection after a phase: they may raise, or ask for another strategy.
  datatype Judgement = JudgingRaises | SwitchStrategy | CarryOn

  // Everything the manager learns from outside: the decomposition, the model's replies, the clock
  // at the start of each turn, and what happens to each save and after each phase. Saves are
  // numbered by the attempts before them, evaluations by the phases before them.
  datatype Environment = Environment(
    plan: seq<(string, seq<string>)>,
    reply: Replies,
    elapsed: nat -> real,
    checkpointId: nat -> string,
    timestamp: nat -> int,
    fault: nat -> SaveFault,
    judgement: nat -> Judgement)

  datatype Ending = Finished | TimedOut | Raised

  datatype LongHorizonResult = LongHorizonResult(
    success: bool, totalSteps: nat, completedSubGoals: nat, totalSubGoals: nat,
    strategySwitches: nat, phaseResults: seq<PhaseResult>, checkpointsSaved: nat)

  function PlanIds(plan: seq<(string, seq<string>)>): seq<string> {
    seq(|plan|, i requires 0 <= i < |plan| => plan[i].0)
  }

  // Each goal's own field says of it what the table says.
  ghost predicate Mirrors(goals: seq<SubGoal>, table: map<string, Status>)
    reads goals
  {
    forall g :: g in goals ==> g.id in table && table[g.id] == g.status
  }

  function CompletedGoals(goals: seq<SubGoal>): nat
    reads goals
  {
    if goals == [] then 0
    else CompletedGoals(goals[..|goals| - 1]) + if goals[|goals| - 1].status == Completed then 1 else 0
  }

  function CompletedIds(goals: seq<SubGoal>): set<string>
    reads goals
  {
    set g | g in goals && g.status == Completed :: g.id
  }

  // ----- checkpoints and strategy switches -----

  // Of the first n attempts to save, those that got as far as writing the file.
  function Written(fault: nat -> SaveFault, n: nat): nat {
    if n == 0 then 0 else Written(fault, n - 1) + if fault(n - 1) == WriteRaises then 0 else 1
  }

  // Of the first n evaluations, those that led to a switch.
  function Switches(judgement: nat -> Judgement, n: nat): nat {
    if n == 0 then 0 else Switches(judgement, n - 1) + if judgement(n - 1) == SwitchStrategy then 1 else 0
  }

  // The first counts the attempts that got through, the second the evaluations that asked to switch.
  lemma {:induction false} AttemptsAreCounted(fault: nat -> SaveFault, n: nat)
    ensures Written(fault, n) == |set i: nat | i < n && fault(i) != WriteRaises|
  {
    if n > 0 {
      var before := set i: nat | i < n - 1 && fault(i) != WriteRaises;
      var all := set i: nat | i < n && fault(i) != WriteRaises;
      AttemptsAreCounted(fault, n - 1);
      assert fault(n - 1) != WriteRaises ==> all == before + {n - 1};
      assert fault(n - 1) == WriteRaises ==> all == before;
    }
  }

  lemma {:induction false} SwitchesAreCounted(judgement: nat -> Judgement, n: nat)
    ensures Switches(judgement, n) == |set i: nat | i < n && judgement(i) == SwitchStrategy|
  {
    if n > 0 {
      var before := set i: nat | i < n - 1 && judgement(i) == SwitchStrategy;
      var all := set i: nat | i < n && judgement(i) == SwitchStrategy;
      SwitchesAreCounted(judgement, n - 1);
      assert judgement(n - 1) == SwitchStrategy ==> all == before + {n - 1};
      assert judgement(n - 1) != SwitchStrategy ==> all == before;
    }
  }

  ghost predicate Faultless(fault: nat -> SaveFault) {
    forall i: nat :: fault(i) == NoFault
  }

  ghost predicate DistinctNames(ids: nat -> string) {
    forall i: nat, j: nat :: i < j ==> ids(i) != ids(j)
  }

  lemma {:induction false} FaultlessWritesAll(fault: nat -> SaveFault, n: nat)
    requires Faultless(fault)
    ensures Written(fault, n) == n
  {
    if n > 0 {
      FaultlessWritesAll(fault, n - 1);
    }
  }

  // What the save numbered i does to the directory of the task, faults included.
  ghost predicate SaveStep(env: Environment, taskId: string, dirs: seq<Directory>, i: nat) {
    && i + 1 < |dirs|
    && var cp, count := Checkpoint(env.checkpointId(i), taskId, env.timestamp(i)), Written(env.fault, i);
       if env.fault(i) == WriteRaises then dirs[i + 1] == dirs[i]
       else if env.fault(i) == CleanupRaises && (count + 1) % CLEANUP_EVERY == 0 then
         dirs[i + 1] == dirs[i][cp.id := cp]
       else SavedBy(dirs[i], count, cp, dirs[i + 1])
  }

  // The directory before the first save and after each of them.
  ghost predicate AreSaves(env: Environment, taskId: string, dirs: seq<Directory>) {
    |dirs| > 0 && forall i {:trigger SaveStep(env, taskId, dirs, i)} :: 0 <= i < |dirs| - 1 ==>
      SaveStep(env, taskId, dirs, i)
  }

  lemma SavesGoOn(env: Environment, taskId: string, dirs: seq<Directory>, after: Directory)
    requires AreSaves(env, taskId, dirs) && SaveStep(env, taskId, dirs + [after], |dirs| - 1)
    ensures AreSaves(env, taskId, dirs + [after])
  {
    forall i | 0 <= i < |dirs| ensures SaveStep(env, taskId, dirs + [after], i) {
      if i < |dirs| - 1 {
        assert SaveStep(env, taskId, dirs, i);
      }
    }
  }

  lemma FaultlessStep(env: Environment, taskId: string, dirs: seq<Directory>, i: nat)
    requires AreSaves(env, taskId, dirs) && i + 1 < |dirs| && Faultless(env.fault)
    ensures SavedBy(dirs[i], i, Checkpoint(env.checkpointId(i), taskId, env.timestamp(i)), dirs[i + 1])
  {
    assert SaveStep(env, taskId, dirs, i);
    FaultlessWritesAll(env.fault, i);
  }

  // Without faults and with distinct names an empty directory comes to hold as many files as the
  // cadence of saving and pruning leaves.
  lemma {:induction false} FaultlessSavesHold(env: Environment, taskId: string, dirs: seq<Directory>, n: nat)
    requires AreSaves(env, taskId, dirs) && n < |dirs| && dirs[0] == map[]
    requires Faultless(env.fault) && DistinctNames(env.checkpointId)
    ensures |dirs[n]| == FilesHeld(n)
    ensures forall id :: id in dirs[n] ==> exists i: nat :: i < n && env.checkpointId(i) == id
  {
    if n > 0 {
      FaultlessSavesHold(env, taskId, dirs, n - 1);
      var cp := Checkpoint(env.checkpointId(n - 1), taskId, env.timestamp(n - 1));
      FaultlessStep(env, taskId, dirs, n - 1);
      assert cp.id !in dirs[n - 1];
      SaveCounts(dirs[n - 1], n - 1, cp, dirs[n]);
      forall id | id in dirs[n] ensures exists i: nat :: i < n && env.checkpointId(i) == id {
        if id == cp.id {
          assert n - 1 < n;
        } else {
          var i: nat :| i < n - 1 && env.checkpointId(i) == id;
          assert i < n;
        }
      }
    }
  }

  // ----- the clock -----

  // The loop over `length` goals ended before turn `reached`: at the first turn that found the time
  // used up, after all of them, or in the turn before.
  ghost predicate StoppedAt(elapsed: nat -> real, limit: real, length: nat, reached: nat, ending: Ending) {
    && reached <= length
    && (ending == Finished ==> reached == length)
    && (ending == TimedOut ==> reached < length && elapsed(reached) >= limit)
    && forall k :: 0 <= k < reached ==> elapsed(k) < limit
  }

  class LongHorizonTaskManager {
    const taskId: string
    const maxMinutes: real
    const tracker: ProgressTracker
    const store: CheckpointStore
    var subGoals: seq<SubGoal>
    var phaseResults: seq<PhaseResult>
    var checkpointsSaved: nat
    var savesAttempted: nat
    // The directory of the task before the first save and after each attempt.
    ghost var directories: seq<Directory>

    constructor (taskId: string, maxMinutes: real, store: CheckpointStore)
      ensures this.taskId == taskId && this.maxMinutes == maxMinutes && this.store == store
      ensures fresh(tracker) && IsFresh()
    {
      this.taskId, this.maxMinutes, this.store := taskId, maxMinutes, store;
      tracker := new ProgressTracker();
      subGoals, phaseResults, checkpointsSaved, savesAttempted := [], [], 0, 0;
      directories := [];
    }

    ghost predicate IsFresh()
      reads this, tracker
    {
      && subGoals == [] && phaseResults == [] && checkpointsSaved == 0 && savesAttempted == 0
      && tracker.subGoals == map[] && tracker.stepsCompleted == 0 && tracker.strategySwitches == 0
    }

    // A parse that yields nothing is replaced by one goal without dependencies.
    method DecomposeGoal(plan: seq<(string, seq<string>)>) returns (goals: seq<SubGoal>)
      ensures fresh(goals) && goals != []
      ensures forall g :: g in goals ==> g.status == Pending
      ensures GoalIds(goals) == if plan == [] then ["sg_1"] else PlanIds(plan)
      ensures plan != [] ==> forall k :: 0 <= k < |plan| ==> goals[k].dependencies == plan[k].1
      ensures plan == [] ==> goals[0].dependencies == []
    {
      goals := [];
      for i := 0 to |plan|
        invariant fresh(goals) && |goals| == i
        invariant forall g :: g in goals ==> g.status == Pending
        invariant forall k :: 0 <= k < i ==> goals[k].id == plan[k].0 && goals[k].dependencies == plan[k].1
      {
        var g := new SubGoal(plan[i].0, plan[i].1);
        goals := goals + [g];
      }
      if goals == [] {
        var g := new SubGoal("sg_1", []);
        goals := [g];
      }
    }

    // Runs one phase. The steps it reports are the steps it has the tracker count.
    method ExecutePhase(g: SubGoal, reply: Reply) returns (result: PhaseResult)
      modifies tracker`stepsCompleted
      ensures result == Outcome(g.id, reply)
      ensures tracker.stepsCompleted == old(tracker.stepsCompleted) + result.stepsTaken
    {
      match reply
      case ChatRaised =>
        result := PhaseResult(g.id, false, 0);
      case Content(empty, markers, marksFailure) =>
        var steps := if markers >= 1 then markers else 1;
        for i := 0 to steps
          invariant tracker.stepsCompleted == old(tracker.stepsCompleted) + i
        {
          tracker.RecordStep();
        }
        result := PhaseResult(g.id, !empty && !marksFailure, steps);
    }

    // The counts and the files are what the attempts so far account for.
    ghost predicate Accounts(env: Environment, start: Directory, saves: nat, judged: nat)
      reads this`checkpointsSaved, this`savesAttempted, this`directories, tracker`strategySwitches, store
    {
      && savesAttempted == saves
      && checkpointsSaved == Written(env.fault, saves)
      && tracker.strategySwitches == Switches(env.judgement, judged)
      && AreSaves(env, taskId, directories)
      && |directories| == saves + 1 && directories[0] == start && directories[saves] == store.TaskDir(taskId)
    }

    // Keeps the latest five files of this task.
    method Prune()
      requires store.Valid()
      modifies store
      ensures store.Valid() && store.dirs - {taskId} == old(store.dirs) - {taskId}
      ensures CleanedUp(old(store.TaskDir(taskId)), store.TaskDir(taskId), KEEP_LAST)
    {
      hide CleanedUp;
      ghost var before := store.TaskDir(taskId);
      var _, chosen := store.Cleanup(taskId, KEEP_LAST, {}, {});
      NothingWithheld(before, chosen, store.TaskDir(taskId), KEEP_LAST);
    }

    // Saves a checkpoint of this task; after every tenth one only the latest five are kept.
    method SaveCheckpoint(id: string, timestamp: int, fault: SaveFault) returns (raised: bool)
      requires store.Valid()
      modifies this`checkpointsSaved, this`savesAttempted, store, tracker`lastCheckpoint
      ensures store.Valid()
      ensures savesAttempted == old(savesAttempted) + 1
      ensures checkpointsSaved == old(checkpointsSaved) + if fault == WriteRaises then 0 else 1
      ensures raised <==> fault == WriteRaises || (fault == CleanupRaises && checkpointsSaved % CLEANUP_EVERY == 0)
      ensures store.dirs - {taskId} == old(store.dirs) - {taskId}
      ensures !raised ==>
        SavedBy(old(store.TaskDir(taskId)), old(checkpointsSaved), Checkpoint(id, taskId, timestamp),
                store.TaskDir(taskId))
      ensures fault == WriteRaises ==> store.TaskDir(taskId) == old(store.TaskDir(taskId))
      ensures raised && fault != WriteRaises ==>
        store.TaskDir(taskId) == old(store.TaskDir(taskId))[id := Checkpoint(id, taskId, timestamp)]
    {
      hide SavedBy, CleanedUp, CheckpointStore.Valid, CheckpointStore.TaskDir;
      savesAttempted := savesAttempted + 1;
      if fault == WriteRaises {
        return true;
      }
      ghost var before, cp := store.TaskDir(taskId), Checkpoint(id, taskId, timestamp);
      store.Save(Checkpoint(id, taskId, timestamp));
      checkpointsSaved := checkpointsSaved + 1;
      tracker.SetLastCheckpoint(id);
      if checkpointsSaved % CLEANUP_EVERY == 0 {
        if fault == CleanupRaises {
          return true;
        }
        Prune();
      }
      SaveIsDone(before, checkpointsSaved - 1, cp, store.TaskDir(taskId));
      raised := false;
    }

    // The next save of the environment.
    method SaveNext(env: Environment, ghost start: Directory, ghost saves: nat, ghost judged: nat)
        returns (raised: bool)
      requires store.Valid() && Accounts(env, start, saves, judged)
      modifies this`checkpointsSaved, this`savesAttempted, this`directories, store, tracker`lastCheckpoint
      ensures store.Valid() && Accounts(env, start, saves + 1, judged)
      ensures raised <==>
        || env.fault(saves) == WriteRaises
        || (env.fault(saves) == CleanupRaises && checkpointsSaved % CLEANUP_EVERY == 0)
    {
      var n := savesAttempted;
      raised := SaveCheckpoint(env.checkpointId(n), env.timestamp(n), env.fault(n));
      SavesGoOn(env, taskId, directories, store.TaskDir(taskId));
      directories := directories + [store.TaskDir(taskId)];
    }

    // Executes goal `g` and records what came of it.
    method ExecuteGoal(g: SubGoal, reply: Reply) returns (result: PhaseResult)
      modifies this`phaseResults, tracker`subGoals, tracker`stepsCompleted, tracker`currentPhase, g`status
      ensures result == Outcome(g.id, reply)
      ensures phaseResults == old(phaseResults) + [result]
      ensures g.status == Ended(result)
      ensures tracker.subGoals == old(tracker.subGoals)[g.id := g.status]
      ensures tracker.stepsCompleted == old(tracker.stepsCompleted) + result.stepsTaken
      ensures tracker.strategySwitches == old(tracker.strategySwitches)
    {
      g.status := InProgress;
      tracker.StartSubGoal(g.id);
      result := ExecutePhase(g, reply);
      phaseResults := phaseResults + [result];
      if result.success {
        g.status := Completed;
        tracker.CompleteSubGoal(g.id);
      } else {
        g.status := Failed;
        tracker.FailSubGoal(g.id);
      }
    }

    // What follows a phase: a checkpoint, an evaluation, perhaps a change of strategy.
    method AfterPhase(env: Environment, ghost start: Directory, phase: nat) returns (raised: bool)
      requires store.Valid() && Accounts(env, start, phase + 1, phase)
      modifies this`checkpointsSaved, this`savesAttempted, this`directories, store
      modifies tracker`lastCheckpoint, tracker`currentPhase, tracker`strategySwitches
      ensures store.Valid()
      ensures raised <==> (
        || env.fault(phase + 1) == WriteRaises
        || (env.fault(phase + 1) == CleanupRaises && checkpointsSaved % CLEANUP_EVERY == 0)
        || env.judgement(phase) == JudgingRaises)
      ensures Accounts(env, start, phase + 2, if raised then phase else phase + 1)
    {
      raised := SaveNext(env, start, phase + 1, phase);
      if raised {
        return;
      }
      tracker.SetPhase("evaluating");
      match env.judgement(phase)
      case JudgingRaises => raised := true;
      case SwitchStrategy => tracker.RecordStrategySwitch();
      case CarryOn =>
    }

    // Goals, tracker and results fit together; this holds at the head of every turn. The last part
    // is what goals with ids of their own add.
    ghost predicate InStep(order: seq<SubGoal>, replies: Replies, unique: bool)
      reads this`phaseResults, tracker`subGoals, tracker`stepsCompleted, order
    {
      && IsOrderedRun(order, replies, phaseResults)
      && tracker.stepsCompleted == TotalSteps(phaseResults)
      && (forall g :: g in order && g.status == Completed ==> g.id in Succeeded(phaseResults))
      && (unique ==>
           && RunState(order, First(replies), phaseResults, tracker.subGoals)
           && Mirrors(order, tracker.subGoals))
    }

    // Executes the goal of turn n, whose dependencies are completed.
    method ExecuteReady(order: seq<SubGoal>, n: nat, replies: Replies, ghost unique: bool, ghost cyclic: set<string>)
        returns (result: PhaseResult)
      requires n < |order| && InStep(order, replies, unique) && DependenciesMet(order[n], Succeeded(phaseResults))
      requires unique ==> IsGatedOrder(order, cyclic) && Settled(order, n, phaseResults)
      modifies this`phaseResults, tracker`subGoals, tracker`stepsCompleted, tracker`currentPhase, order[n]
      ensures InStep(order, replies, unique)
      ensures unique ==> Settled(order, n + 1, phaseResults)
      ensures phaseResults == old(phaseResults) + [result] && result.subGoalId == order[n].id
      ensures tracker.strategySwitches == old(tracker.strategySwitches)
    {
      hide IsGatedOrder, Settled, IsOrderedRun, IsGatedRun;
      var g := order[n];
      assert g in order;
      OrderedRunGoesOn(order, replies, phaseResults, g);
      if unique {
        OneMoreResult(order, cyclic, n, replies, phaseResults, tracker.subGoals);
      }
      result := ExecuteGoal(g, replies(g.id, Times(phaseResults, g.id)));
      SucceededGrows(old(phaseResults), result);
    }

    method ExecuteTurn(order: seq<SubGoal>, n: nat, env: Environment, ghost start: Directory,
                       ghost unique: bool, ghost cyclic: set<string>)
        returns (result: PhaseResult, raised: bool)
      requires store.Valid() && n < |order|
      requires InStep(order, env.reply, unique) && DependenciesMet(order[n], Succeeded(phaseResults))
      requires unique ==> IsGatedOrder(order, cyclic) && Settled(order, n, phaseResults)
      requires Accounts(env, start, |phaseResults| + 1, |phaseResults|)
      modifies this`phaseResults, this`checkpointsSaved, this`savesAttempted, this`directories, store, tracker, order[n]
      ensures store.Valid() && InStep(order, env.reply, unique)
      ensures unique ==> Settled(order, n + 1, phaseResults)
      ensures phaseResults == old(phaseResults) + [result] && result.subGoalId == order[n].id
      ensures Accounts(env, start, |phaseResults| + 1, if raised then |phaseResults| - 1 else |phaseResults|)
    {
      hide *;
      result := ExecuteReady(order, n, env.reply, unique, cyclic);
      raised := AfterPhase(env, start, |phaseResults| - 1);
    }

    method ExecuteInOrder(order: seq<SubGoal>, env: Environment, ghost start: Directory, ghost unique: bool,
                          ghost cyclic: set<string>)
        returns (ending: Ending, ghost reached: nat)
      requires store.Valid() && (unique ==> IsGatedOrder(order, cyclic))
      requires phaseResults == [] && InStep(order, env.reply, unique) && Accounts(env, start, 1, 0)
      modifies this`phaseResults, this`checkpointsSaved, this`savesAttempted, this`directories, store, tracker, order
      ensures store.Valid() && InStep(order, env.reply, unique)
      ensures StoppedAt(env.elapsed, maxMinutes, |order|, reached, ending)
      ensures unique ==> Settled(order, reached, phaseResults)
      ensures Accounts(env, start, |phaseResults| + 1, Judged(|phaseResults|, ending))
    {
      hide InStep, Accounts, IsGatedOrder, Settled, Succeeded, TotalSteps;
      var completed: set<string> := {};
      reached := 0;
      NothingSettledYet(order);
      for n := 0 to |order|
        invariant store.Valid() && InStep(order, env.reply, unique)
        invariant Accounts(env, start, |phaseResults| + 1, |phaseResults|)
        invariant reached == n && forall k :: 0 <= k < n ==> env.elapsed(k) < maxMinutes
        invariant completed == Succeeded(phaseResults)
        invariant unique ==> Settled(order, n, phaseResults)
      {
        if env.elapsed(n) >= maxMinutes {
          return TimedOut, n;
        }
        var g, id := order[n], order[n].id;
        CompletedIsKnown(order, n, env.reply, unique);
        if g.status == Completed {
          completed := completed + {id};
        } else if forall d :: d in g.dependencies ==> d in completed {
          ghost var before := phaseResults;
          var result, raised := ExecuteTurn(order, n, env, start, unique, cyclic);
          SucceededGrows(before, result);
          completed := completed + if result.success then {id} else {};
          if raised {
            return Raised, n + 1;
          }
        } else if unique {
          SkippingSettles(order, n, phaseResults);
        }
        reached := n + 1;
      }
      ending := Finished;
    }

    // A completed goal's id has been counted as completed.
    lemma CompletedIsKnown(order: seq<SubGoal>, n: nat, replies: Replies, unique: bool)
      requires n < |order| && InStep(order, replies, unique) && (unique ==> Settled(order, n, phaseResults))
      ensures order[n].status == Completed ==> !unique && order[n].id in Succeeded(phaseResults)
    {
      assert order[n] in order;
      if unique {
        NotYetCompleted(order, n, replies, phaseResults, tracker.subGoals);
      }
    }

    method RegisterAll(goals: seq<SubGoal>)
      requires tracker.subGoals == map[]
      modifies tracker`subGoals
      ensures tracker.subGoals.Keys == IdSet(goals)
      ensures forall id :: id in tracker.subGoals ==> tracker.subGoals[id] == Pending
    {
      for i := 0 to |goals|
        invariant tracker.subGoals.Keys == IdSet(goals[..i])
        invariant forall id :: id in tracker.subGoals ==> tracker.subGoals[id] == Pending
      {
        assert goals[..i + 1] == goals[..i] + [goals[i]];
        assert IdSet(goals[..i + 1]) == IdSet(goals[..i]) + {goals[i].id};
        tracker.RegisterSubGoal(goals[i].id);
      }
      assert goals[..|goals|] == goals;
    }

    // Goals, tracker and phase results agree on what is reported.
    method BuildResult(success: bool, elapsed: real, ghost replies: Replies, ghost unique: bool)
        returns (result: LongHorizonResult)
      requires InStep(subGoals, replies, unique) && (unique ==> Distinct(GoalIds(subGoals)))
      ensures result.success == success && result.phaseResults == phaseResults
      ensures result.totalSteps == TotalSteps(phaseResults)
      ensures unique ==>
        result.completedSubGoals == Successes(phaseResults) == CompletedGoals(subGoals) &&
          result.totalSubGoals == |subGoals|
      ensures result.strategySwitches == tracker.strategySwitches && result.checkpointsSaved == checkpointsSaved
    {
      if unique {
        ReportAddsUp(subGoals, First(replies), phaseResults, tracker.subGoals);
      }
      var report := tracker.GetReport(elapsed);
      result := LongHorizonResult(success, report.stepsCompleted, report.completedSubGoals, report.totalSubGoals,
                                  report.strategySwitches, phaseResults, checkpointsSaved);
    }

    // The two steps before the loop: the goals registered as pending, and the first checkpoint.
    method Prepare(env: Environment, ghost start: Directory) returns (raised: bool)
      requires IsFresh() && store.Valid() && Accounts(env, start, 0, 0)
      modifies this, tracker, store
      ensures store.Valid() && phaseResults == [] && subGoals != [] && fresh(subGoals)
      ensures Planned(env) && InStep(subGoals, env.reply, true)
      ensures Accounts(env, start, 1, 0)
    {
      hide *;
      RegisterPlan(env);
      raised := SaveNext(env, start, 0, 0);
    }

    method RegisterPlan(env: Environment)
      requires IsFresh()
      modifies this`subGoals, tracker`subGoals, tracker`currentPhase
      ensures subGoals != [] && fresh(subGoals) && phaseResults == []
      ensures Planned(env) && InStep(subGoals, env.reply, true)
    {
      tracker.SetPhase("planning");
      subGoals := DecomposeGoal(env.plan);
      RegisterAll(subGoals);
      assert forall g :: g in subGoals ==> g.id in IdSet(subGoals);
      assert Mirrors(subGoals, tracker.subGoals);
    }

    // A fresh manager runs the whole task. The first group of clauses holds for any plan, the
    // second for plans whose ids are distinct.
    method ExecuteLongTask(env: Environment)
        returns (result: LongHorizonResult, ending: Ending, ghost order: seq<SubGoal>, ghost reached: nat)
      requires IsFresh() && store.Valid()
      modifies this, tracker, store
      ensures store.Valid()
      ensures GoalIds(subGoals) == if env.plan == [] then ["sg_1"] else PlanIds(env.plan)
      ensures forall k :: 0 <= k < |env.plan| ==> subGoals[k].dependencies == env.plan[k].1
      // Every phase that was executed had its dependencies completed, and its steps are reported.
      ensures result.phaseResults == phaseResults && IsOrderedRun(subGoals, env.reply, result.phaseResults)
      ensures result.totalSteps == TotalSteps(result.phaseResults)
      ensures result.success <==> ending != Raised && forall g :: g in subGoals ==> g.status == Completed
      // The loop went through the sorted goals up to a turn, and stopped there for its reason; if an
      // exception came before the first phase there was no loop to speak of.
      ensures ending != Raised || result.phaseResults != [] ==> IsExecutionOrder(subGoals, order)
      ensures StoppedAt(env.elapsed, maxMinutes, |order|, reached, ending)
      ensures ending == Finished ==> reached == |order|
      ensures ending == TimedOut ==> reached < |order| && env.elapsed(reached) >= maxMinutes
      ensures forall k :: 0 <= k < reached ==> env.elapsed(k) < maxMinutes
      // One save before the loop, one after every phase, one more after an exception.
      ensures savesAttempted == |result.phaseResults| + if ending == Raised then 2 else 1
      ensures result.checkpointsSaved == Written(env.fault, SavesTried(|result.phaseResults|, ending))
      ensures result.strategySwitches == Switches(env.judgement, Judged(|result.phaseResults|, ending))
      ensures Faultless(env.fault) ==> result.checkpointsSaved == SavesTried(|result.phaseResults|, ending)
      ensures Faultless(env.fault) && DistinctNames(env.checkpointId) && old(store.TaskDir(taskId)) == map[] ==>
        |store.TaskDir(taskId)| == FilesHeld(result.checkpointsSaved)
      // With distinct ids: no goal twice, goals and tracker agree, the report counts them.
      ensures Distinct(PlanIds(env.plan)) ==>
        && IsGatedRun(subGoals, First(env.reply), result.phaseResults)
        && Mirrors(subGoals, tracker.subGoals)
        && forall g :: g in subGoals ==> g.status == StatusAfter(result.phaseResults, g.id)
      ensures Distinct(PlanIds(env.plan)) ==>
        && result.completedSubGoals == Successes(result.phaseResults) == CompletedGoals(subGoals)
        && result.totalSubGoals == |subGoals|
        && (result.success <==> ending != Raised && result.completedSubGoals == result.totalSubGoals)
      // A goal was completed on a text that is neither empty nor reads as a failure, and failed on any
      // other reply; a phase counts the step markers of the text, at least one, and none if it raised.
      ensures Distinct(PlanIds(env.plan)) ==>
        forall g :: g in subGoals ==>
          var reply := env.reply(g.id, 0);
          && (g.status == Completed ==> reply.Content? && !reply.empty && !reply.marksFailure)
          && (g.status == Failed ==> !(reply.Content? && !reply.empty && !reply.marksFailure))
          && g.status != InProgress
      ensures Distinct(PlanIds(env.plan)) ==>
        forall k :: 0 <= k < |result.phaseResults| ==>
          var r := result.phaseResults[k];
          var reply := env.reply(r.subGoalId, 0);
          && (r.success <==> reply.Content? && !reply.empty && !reply.marksFailure)
          && r.stepsTaken == if reply.ChatRaised? then 0 else if reply.markers >= 1 then reply.markers else 1
      // However it stopped, exactly the goals dealt with and ready were executed; a cyclic goal never
      // is; and a loop that ran to its end completed exactly the goals that can be.
      ensures Distinct(PlanIds(env.plan)) && (ending != Raised || result.phaseResults != []) ==>
        && (forall k :: 0 <= k < reached ==>
             (order[k].status != Pending <==> forall d :: d in order[k].dependencies ==> d in CompletedIds(subGoals)))
        && forall k :: reached <= k < |order| ==> order[k].status == Pending
      ensures Distinct(PlanIds(env.plan)) && (ending != Raised || result.phaseResults != []) ==>
        Settled(order, reached, result.phaseResults)
      ensures Distinct(PlanIds(env.plan)) ==>
        forall g :: g in subGoals && LeadsIntoCycle(Edges(subGoals), g.id) ==> g.status == Pending
      ensures Distinct(PlanIds(env.plan)) && ending == Finished ==>
        IsLeastFixpoint(subGoals, First(env.reply), Succeeded(result.phaseResults))
    {
      hide InStep, RanTo, Accounts, IsOrderedRun, IsGatedRun, Settled, IsExecutionOrder, StatusAfter, IsLeastFixpoint;
      hide CompletedIds, Written, Switches, CompletedGoals, TotalSteps, Successes, Succeeded, FilesHeld;
      hide Distinct, PlanIds, GoalIds, Mirrors, LeadsIntoCycle, Edges, Faultless, DistinctNames, Judged;
      ghost var unique := Distinct(PlanIds(env.plan));
      ghost var start := store.TaskDir(taskId);
      directories := [start];
      NothingCounted(env, start);
      var success;
      success, ending, order, reached := TryTask(env, start, unique);
      PlannedIdsAreDistinct(env);
      RunMeans(env, unique, ending, order, reached);
      result := BuildResult(success, env.elapsed(0), env.reply, unique);
      RunMeans(env, unique, ending, order, reached);
      AccountsMean(env, start, SavesTried(|phaseResults|, ending), Judged(|phaseResults|, ending));
      AllCompletedWhenCounted(subGoals);
      if unique {
        StatusesReadReplies(subGoals, First(env.reply), phaseResults);
        if ending != Raised || phaseResults != [] {
          StatusesAreSettled(subGoals, order, First(env.reply), phaseResults, reached);
        }
      }
    }

    // The goals are those of the plan.
    ghost predicate Planned(env: Environment)
      reads this`subGoals
    {
      && GoalIds(subGoals) == (if env.plan == [] then ["sg_1"] else PlanIds(env.plan))
      && forall k :: 0 <= k < |env.plan| ==> subGoals[k].dependencies == env.plan[k].1
    }

    // What the run has come to: the results and goals fit together, the loop went through the sorted
    // goals up to a turn, and what that means for goals with ids of their own.
    ghost predicate RanTo(env: Environment, unique: bool, ending: Ending, order: seq<SubGoal>, reached: nat)
      reads this`subGoals, this`phaseResults, tracker`subGoals, tracker`stepsCompleted, subGoals
    {
      && InStep(subGoals, env.reply, unique)
      && StoppedAt(env.elapsed, maxMinutes, |order|, reached, ending)
      && (ending != Raised || phaseResults != [] ==> IsExecutionOrder(subGoals, order))
      && (unique && (ending != Raised || phaseResults != []) ==> Settled(order, reached, phaseResults))
      && (unique && ending == Finished ==> IsLeastFixpoint(subGoals, First(env.reply), Succeeded(phaseResults)))
    }

    lemma PlannedIdsAreDistinct(env: Environment)
      requires Planned(env)
      ensures Distinct(PlanIds(env.plan)) ==> Distinct(GoalIds(subGoals))
    {
    }

    lemma NothingCounted(env: Environment, start: Directory)
      requires IsFresh() && directories == [start] && start == store.TaskDir(taskId)
      ensures Accounts(env, start, 0, 0)
    {
    }

    // What the counts come to.
    lemma AccountsMean(env: Environment, start: Directory, saves: nat, judged: nat)
      requires Accounts(env, start, saves, judged)
      ensures savesAttempted == saves && checkpointsSaved == Written(env.fault, saves) &&
        tracker.strategySwitches == Switches(env.judgement, judged)
      ensures Faultless(env.fault) ==> checkpointsSaved == saves
      ensures Faultless(env.fault) && DistinctNames(env.checkpointId) && start == map[] ==>
        |store.TaskDir(taskId)| == FilesHeld(checkpointsSaved)
    {
      if Faultless(env.fault) {
        FaultlessWritesAll(env.fault, saves);
        if DistinctNames(env.checkpointId) && start == map[] {
          FaultlessSavesHold(env, taskId, directories, saves);
        }
      }
    }

    lemma RanNowhere(env: Environment, unique: bool)
      requires InStep(subGoals, env.reply, true) && phaseResults == []
      ensures RanTo(env, unique, Raised, [], 0)
    {
    }

    // What that says of the goals, the tracker and the order.
    lemma RunMeans(env: Environment, unique: bool, ending: Ending, order: seq<SubGoal>, reached: nat)
      requires RanTo(env, unique, ending, order, reached) && (unique ==> Distinct(GoalIds(subGoals)))
      ensures InStep(subGoals, env.reply, unique) && IsOrderedRun(subGoals, env.reply, phaseResults)
      ensures ending != Raised || phaseResults != [] ==> IsExecutionOrder(subGoals, order)
      ensures StoppedAt(env.elapsed, maxMinutes, |order|, reached, ending)
      ensures unique ==> IsGatedRun(subGoals, First(env.reply), phaseResults) && Mirrors(subGoals, tracker.subGoals)
      ensures unique ==> forall g :: g in subGoals ==> g.status == StatusAfter(phaseResults, g.id)
      ensures unique && (ending != Raised || phaseResults != []) ==> Settled(order, reached, phaseResults)
      ensures unique ==> forall g :: g in subGoals && LeadsIntoCycle(Edges(subGoals), g.id) ==> g.status == Pending
      ensures unique && ending == Finished ==> IsLeastFixpoint(subGoals, First(env.reply), Succeeded(phaseResults))
    {
      if unique {
        CyclicGoalsStayPending(subGoals, First(env.reply), phaseResults, tracker.subGoals);
      }
    }

    // The guarded part: whatever raises ends it, after one more attempt to save whose own failure
    // is swallowed.
    method TryTask(env: Environment, ghost start: Directory, ghost unique: bool)
        returns (success: bool, ending: Ending, ghost order: seq<SubGoal>, ghost reached: nat)
      requires IsFresh() && store.Valid() && (unique ==> Distinct(PlanIds(env.plan))) && Accounts(env, start, 0, 0)
      modifies this, tracker, store
      ensures store.Valid() && Planned(env) && RanTo(env, unique, ending, order, reached)
      ensures success <==> ending != Raised && forall g :: g in subGoals ==> g.status == Completed
      ensures Accounts(env, start, SavesTried(|phaseResults|, ending), Judged(|phaseResults|, ending))
    {
      hide InStep, RanTo, Planned, Accounts;
      var raised := Prepare(env, start);
      RanNowhere(env, unique);
      ending, order, reached := Raised, [], 0;
      PlannedIdsAreDistinct(env);
      if !raised {
        ending, order, reached := RunGoals(env, start, unique);
      }
      assert Accounts(env, start, |phaseResults| + 1, Judged(|phaseResults|, ending));
      success := false;
      if ending == Raised {
        var _ := SaveNext(env, start, |phaseResults| + 1, Judged(|phaseResults|, ending));
      } else {
        success := forall g :: g in subGoals ==> g.status == Completed;
      }
    }

    method RunGoals(env: Environment, ghost start: Directory, ghost unique: bool)
        returns (ending: Ending, ghost order: seq<SubGoal>, ghost reached: nat)
      requires store.Valid() && phaseResults == [] && InStep(subGoals, env.reply, true)
      requires unique ==> Distinct(GoalIds(subGoals))
      requires Accounts(env, start, 1, 0)
      modifies this`phaseResults, this`checkpointsSaved, this`savesAttempted, this`directories, store, tracker, subGoals
      ensures store.Valid() && RanTo(env, unique, ending, order, reached)
      ensures Accounts(env, start, |phaseResults| + 1, Judged(|phaseResults|, ending))
    {
      hide InStep, RanTo, Accounts, IsExecutionOrder, IsGatedOrder;
      var sorted := TopologicalSort.TopologicalSort(subGoals);
      OrderGoalsAreGoals(subGoals, sorted);
      ghost var cyclic := {};
      if unique {
        cyclic := ExecutionOrderIsGated(subGoals, sorted);
      }
      SortedIsInStep(sorted, env.reply, unique);
      ending, reached := ExecuteInOrder(sorted, env, start, unique, cyclic);
      order := sorted;
      RanInOrder(sorted, env, unique, ending, reached);
    }

    lemma SortedIsInStep(sorted: seq<SubGoal>, replies: Replies, unique: bool)
      requires InStep(subGoals, replies, true) && phaseResults == [] && forall g :: g in sorted ==> g in subGoals
      requires unique ==> multiset(sorted) == multiset(subGoals)
      ensures InStep(sorted, replies, unique) && forall g :: g in subGoals ==> g.status != Completed
    {
      hide RunState;
      if unique {
        SameRunState(subGoals, sorted, First(replies), phaseResults, tracker.subGoals);
      }
    }

    lemma RanInOrder(sorted: seq<SubGoal>, env: Environment, unique: bool, ending: Ending, reached: nat)
      requires InStep(sorted, env.reply, unique) && (forall g :: g in sorted ==> g in subGoals)
      requires forall g :: g in subGoals && g !in sorted ==> g.status != Completed
      requires unique ==> Distinct(GoalIds(subGoals)) && multiset(sorted) == multiset(subGoals)
      requires IsExecutionOrder(subGoals, sorted) && StoppedAt(env.elapsed, maxMinutes, |sorted|, reached, ending)
      requires unique ==> Settled(sorted, reached, phaseResults)
      ensures RanTo(env, unique, ending, sorted, reached)
    {
      hide IsExecutionOrder, IsGatedRun, Settled, IsLeastFixpoint;
      OrderedRunOfMore(sorted, subGoals, env.reply, phaseResults);
      if unique {
        SameRunState(sorted, subGoals, First(env.reply), phaseResults, tracker.subGoals);
        if ending == Finished {
          SettledRunIsLeastFixpoint(subGoals, sorted, First(env.reply), phaseResults);
        }
      }
    }
  }

  // How often a run with that many phases tried to save, and how many of them it evaluated.
  function SavesTried(phases: nat, ending: Ending): nat {
    phases + if ending == Raised then 2 else 1
  }

  function Judged(phases: nat, ending: Ending): nat {
    if ending == Raised && phases > 0 then phases - 1 else phases
  }

  lemma NothingSettledYet(order: seq<SubGoal>)
    ensures Settled(order, 0, []) && Succeeded([]) == {}
  {
  }

  lemma SucceededGrows(results: seq<PhaseResult>, result: PhaseResult)
    ensures Succeeded(results + [result]) == Succeeded(results) + if result.success then {result.subGoalId} else {}
    ensures TotalSteps(results + [result]) == TotalSteps(results) + result.stepsTaken
  {
    assert (results + [result])[..|results|] == results;
  }

  lemma CyclicGoalsStayPending(goals: seq<SubGoal>, reply: string -> Reply, results: seq<PhaseResult>,
                               table: map<string, Status>)
    requires Distinct(GoalIds(goals)) && RunState(goals, reply, results, table) && Mirrors(goals, table)
    ensures forall g :: g in goals && LeadsIntoCycle(Edges(goals), g.id) ==> g.status == Pending
  {
    SucceededAreExecuted(results);
    forall id | id in Executed(results) ensures !LeadsIntoCycle(Edges(goals), id) {
      CyclicGoalsNeverRun(goals, reply, results, id);
    }
  }

  lemma CompletedAreSucceeded(goals: seq<SubGoal>, reply: string -> Reply, results: seq<PhaseResult>)
    requires IsGatedRun(goals, reply, results) && forall g :: g in goals ==> g.status == StatusAfter(results, g.id)
    ensures CompletedIds(goals) == Succeeded(results)
  {
    hide IsGatedRun;
    SucceededAreGoals(goals, reply, results);
    forall id | id in Succeeded(results) ensures id in CompletedIds(goals) {
      var g :| g in goals && g.id == id;
    }
  }

  // The statuses in terms of the replies.
  lemma StatusesReadReplies(goals: seq<SubGoal>, reply: string -> Reply, results: seq<PhaseResult>)
    requires IsGatedRun(goals, reply, results) && forall g :: g in goals ==> g.status == StatusAfter(results, g.id)
    ensures forall g :: g in goals ==>
      var answer := reply(g.id);
      && (g.status == Completed ==> answer.Content? && !answer.empty && !answer.marksFailure)
      && (g.status == Failed ==> !(answer.Content? && !answer.empty && !answer.marksFailure))
      && g.status != InProgress
    ensures forall k :: 0 <= k < |results| ==>
      var r := results[k];
      var answer := reply(r.subGoalId);
      && (r.success <==> answer.Content? && !answer.empty && !answer.marksFailure)
      && r.stepsTaken == if answer.ChatRaised? then 0 else if answer.markers >= 1 then answer.markers else 1
  {
    forall g | g in goals
      ensures g.status == Completed ==> reply(g.id).Content? && !reply(g.id).empty && !reply(g.id).marksFailure
      ensures g.status == Failed ==> !(reply(g.id).Content? && !reply(g.id).empty && !reply(g.id).marksFailure)
      ensures g.status != InProgress
    {
      StatusReadsReply(goals, reply, results, g.id);
    }
    forall k | 0 <= k < |results|
      ensures results[k].success <==>
        var answer := reply(results[k].subGoalId); answer.Content? && !answer.empty && !answer.marksFailure
      ensures results[k].stepsTaken ==
        var answer := reply(results[k].subGoalId);
        if answer.ChatRaised? then 0 else if answer.markers >= 1 then answer.markers else 1
    {
      GatedResultsReadReplies(goals, reply, results, k);
    }
  }

  // Of the goals dealt with, exactly those whose dependencies are completed have been executed.
  lemma StatusesAreSettled(goals: seq<SubGoal>, order: seq<SubGoal>, reply: string -> Reply,
                           results: seq<PhaseResult>, reached: nat)
    requires IsGatedRun(goals, reply, results) && forall g :: g in goals ==> g.status == StatusAfter(results, g.id)
    requires Distinct(GoalIds(goals)) && IsExecutionOrder(goals, order)
    requires reached <= |order| && Settled(order, reached, results)
    ensures forall k :: 0 <= k < reached ==>
      (order[k].status != Pending <==> forall d :: d in order[k].dependencies ==> d in CompletedIds(goals))
    ensures forall k :: reached <= k < |order| ==> order[k].status == Pending
  {
    hide IsGatedRun, IsExecutionOrder, CompletedIds;
    CompletedAreSucceeded(goals, reply, results);
    UniqueIdsGivePermutation(goals, order);
    PermutationSameElements(order, goals);
    SucceededAreExecuted(results);
    assert forall k :: 0 <= k < |order| ==> order[k] in goals;
  }

  lemma SameRunState(a: seq<SubGoal>, b: seq<SubGoal>, reply: string -> Reply,
                     results: seq<PhaseResult>, table: map<string, Status>)
    requires multiset(a) == multiset(b) && RunState(a, reply, results, table) && Mirrors(a, table)
    ensures RunState(b, reply, results, table) && Mirrors(b, table)
  {
    PermutationSameElements(a, b);
    SameRunOverSameGoals(a, b, reply, results);
    assert IdSet(a) == IdSet(b);
  }

  // Goals, table and results count the same number of completed goals.
  lemma ReportAddsUp(goals: seq<SubGoal>, reply: string -> Reply, results: seq<PhaseResult>,
                     table: map<string, Status>)
    requires Distinct(GoalIds(goals)) && RunState(goals, reply, results, table) && Mirrors(goals, table)
    ensures |CompletedIn(table)| == Successes(results) == CompletedGoals(goals)
    ensures |table| == |goals|
  {
    SuccessesAreDistinct(goals, reply, results);
    SucceededAreGoals(goals, reply, results);
    assert CompletedIn(table) == Succeeded(results);
    CountCompleted(goals, table);
    assert CompletedIn(table) == set id | id in IdSet(goals) && table[id] == Completed;
    IdsAsMany(goals);
    assert |table| == |table.Keys|;
  }

  lemma {:induction false} SucceededAreGoals(goals: seq<SubGoal>, reply: string -> Reply, results: seq<PhaseResult>)
    requires IsGatedRun(goals, reply, results)
    ensures Succeeded(results) <= IdSet(goals)
  {
    if results != [] {
      SucceededAreGoals(goals, reply, results[..|results| - 1]);
    }
  }

  lemma FrontIds(goals: seq<SubGoal>)
    requires Distinct(GoalIds(goals)) && goals != []
    ensures var front, g := goals[..|goals| - 1], goals[|goals| - 1];
      Distinct(GoalIds(front)) && g.id !in IdSet(front) && IdSet(goals) == IdSet(front) + {g.id}
  {
    var front, g := goals[..|goals| - 1], goals[|goals| - 1];
    assert GoalIds(front) == GoalIds(goals)[..|front|];
    forall k | 0 <= k < |front| ensures front[k].id != g.id {
      assert GoalIds(goals)[k] != GoalIds(goals)[|front|];
    }
    assert goals == front + [g];
  }

  lemma {:induction false} IdsAsMany(goals: seq<SubGoal>)
    requires Distinct(GoalIds(goals))
    ensures |IdSet(goals)| == |goals|
  {
    if goals != [] {
      FrontIds(goals);
      IdsAsMany(goals[..|goals| - 1]);
    }
  }

  lemma OneMoreCompleted(ids: set<string>, id: string, table: map<string, Status>)
    requires ids <= table.Keys && id in table && id !in ids
    ensures |set i | i in ids + {id} && table[i] == Completed|
         == |set i | i in ids && table[i] == Completed| + if table[id] == Completed then 1 else 0
  {
    var before := set i | i in ids && table[i] == Completed;
    assert (set i | i in ids + {id} && table[i] == Completed) == before + if table[id] == Completed then {id} else {};
  }

  lemma {:induction false} CountCompleted(goals: seq<SubGoal>, table: map<string, Status>)
    requires Distinct(GoalIds(goals)) && Mirrors(goals, table)
    ensures IdSet(goals) <= table.Keys
    ensures |set id | id in IdSet(goals) && table[id] == Completed| == CompletedGoals(goals)
  {
    if goals != [] {
      var front, g := goals[..|goals| - 1], goals[|goals| - 1];
      FrontIds(goals);
      assert g in goals && forall h :: h in front ==> h in goals;
      CountCompleted(front, table);
      OneMoreCompleted(IdSet(front), g.id, table);
    }
  }

  lemma {:induction false} AllCompletedWhenCounted(goals: seq<SubGoal>)
    ensures CompletedGoals(goals) <= |goals|
    ensures CompletedGoals(goals) == |goals| <==> forall g :: g in goals ==> g.status == Completed
  {
    if goals != [] {
      var front, g := goals[..|goals| - 1], goals[|goals| - 1];
      AllCompletedWhenCounted(front);
      assert goals == front + [g];
      assert forall h :: h in goals <==> h in front || h == g;
    }
  }

  // The table of statuses follows from the results.
  ghost predicate RunState(order: seq<SubGoal>, reply: string -> Reply, results: seq<PhaseResult>,
                           table: map<string, Status>)
  {
    && IsGatedRun(order, reply, results)
    && table.Keys == IdSet(order)
    && (forall id :: id in table ==> table[id] == StatusAfter(results, id))
  }

  // With ids of their own, the goal of this turn is asked for the first time, and its result keeps
  // everything in step.
  lemma OneMoreResult(order: seq<SubGoal>, cyclic: set<string>, n: nat, replies: Replies,
                      results: seq<PhaseResult>, table: map<string, Status>)
    requires IsGatedOrder(order, cyclic) && n < |order|
    requires RunState(order, First(replies), results, table) && Settled(order, n, results)
    requires DependenciesMet(order[n], Succeeded(results))
    ensures Times(results, order[n].id) == 0
    ensures forall g :: g in order && g != order[n] ==> g.id != order[n].id
    ensures
      var result := Outcome(order[n].id, replies(order[n].id, 0));
      && RunState(order, First(replies), results + [result], table[order[n].id := Ended(result)])
      && Settled(order, n + 1, results + [result])
  {
    hide IsGatedRun, Settled, IsGatedOrder, Times, StatusAfter, Executed, Succeeded;
    var result := Outcome(order[n].id, replies(order[n].id, 0));
    TimesIffExecuted(results, order[n].id);
    GatedOrderHasOwnIds(order, cyclic, n, results);
    ExecutingSettles(order, cyclic, n, First(replies), results);
    assert order[n] in order;
    StatusGrows(results, result);
  }

  lemma GatedOrderHasOwnIds(order: seq<SubGoal>, cyclic: set<string>, n: nat, results: seq<PhaseResult>)
    requires IsGatedOrder(order, cyclic) && n < |order| && Settled(order, n, results)
    ensures order[n].id !in Executed(results)
    ensures forall g :: g in order && g != order[n] ==> g.id != order[n].id
  {
    forall g | g in order && g != order[n] ensures g.id != order[n].id {
      var k :| 0 <= k < |order| && order[k] == g;
      assert GoalIds(order)[k] != GoalIds(order)[n];
    }
  }

  function Ended(result: PhaseResult): Status {
    if result.success then Completed else Failed
  }

  lemma StatusGrows(results: seq<PhaseResult>, result: PhaseResult)
    requires result.subGoalId !in Executed(results)
    ensures forall id ::
      StatusAfter(results + [result], id) == if id == result.subGoalId then Ended(result) else StatusAfter(results, id)
  {
    SucceededAreExecuted(results);
    assert (results + [result])[..|results|] == results;
  }

  lemma NotYetCompleted(order: seq<SubGoal>, n: nat, replies: Replies, results: seq<PhaseResult>,
                        table: map<string, Status>)
    requires n < |order| && RunState(order, First(replies), results, table) && Settled(order, n, results)
    ensures order[n].id in table && table[order[n].id] == Pending && order[n] in order
  {
    SucceededAreExecuted(results);
    assert order[n] in order;
  }
}
