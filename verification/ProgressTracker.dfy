/** ProgressTracker: goal statuses, step and switch counters, and the report built from them. */
module ProgressTracking {
  import opened LongHorizonTypes
  import opened Sequences

  datatype ProgressReport = ProgressReport(
    totalSubGoals: nat, completedSubGoals: nat, currentPhase: string, stepsCompleted: nat,
    elapsedMinutes: real, strategySwitches: nat, statuses: map<string, Status>,
    estimatedRemainingMinutes: real, lastCheckpoint: string)

  function CompletedIn(statuses: map<string, Status>): set<string> {
    set id | id in statuses && statuses[id] == Completed
  }

  class ProgressTracker {
    var subGoals: map<string, Status>
    var stepsCompleted: nat
    var strategySwitches: nat
    var currentPhase: string
    var lastCheckpoint: string

    constructor ()
      ensures subGoals == map[] && stepsCompleted == 0 && strategySwitches == 0
    {
      subGoals, stepsCompleted, strategySwitches := map[], 0, 0;
      currentPhase, lastCheckpoint := "planning", "";
    }

    method RegisterSubGoal(id: string)
      modifies this`subGoals
      ensures subGoals == if id in old(subGoals) then old(subGoals) else old(subGoals)[id := Pending]
    {
      if id !in subGoals {
        subGoals := subGoals[id := Pending];
      }
    }

    method StartSubGoal(id: string)
      modifies this`subGoals, this`currentPhase
      ensures subGoals == old(subGoals)[id := InProgress] && currentPhase == "executing"
    {
      subGoals := subGoals[id := InProgress];
      currentPhase := "executing";
    }

    method CompleteSubGoal(id: string)
      modifies this`subGoals, this`currentPhase
      ensures subGoals == if id in old(subGoals) then old(subGoals)[id := Completed] else old(subGoals)
      ensures currentPhase == "completed" <==> subGoals != map[] && CompletedIn(subGoals) == subGoals.Keys
      ensures currentPhase in {"completed", "evaluating"}
    {
      if id in subGoals {
        subGoals := subGoals[id := Completed];
      }
      if (forall i :: i in subGoals ==> subGoals[i] == Completed) && subGoals != map[] {
        assert CompletedIn(subGoals) == subGoals.Keys;
        currentPhase := "completed";
      } else {
        assert forall i :: i in subGoals && subGoals[i] != Completed ==> i !in CompletedIn(subGoals);
        currentPhase := "evaluating";
      }
    }

    method FailSubGoal(id: string)
      modifies this`subGoals
      ensures subGoals == if id in old(subGoals) then old(subGoals)[id := Failed] else old(subGoals)
    {
      if id in subGoals {
        subGoals := subGoals[id := Failed];
      }
    }

    method RecordStep()
      modifies this`stepsCompleted
      ensures stepsCompleted == old(stepsCompleted) + 1
    {
      stepsCompleted := stepsCompleted + 1;
    }

    method RecordStrategySwitch()
      modifies this`strategySwitches, this`currentPhase
      ensures strategySwitches == old(strategySwitches) + 1 && currentPhase == "stagnant"
    {
      strategySwitches := strategySwitches + 1;
      currentPhase := "stagnant";
    }

    method SetPhase(phase: string)
      modifies this`currentPhase
      ensures currentPhase == phase
    {
      currentPhase := phase;
    }

    method SetLastCheckpoint(id: string)
      modifies this`lastCheckpoint
      ensures lastCheckpoint == id
    {
      lastCheckpoint := id;
    }

    // The report of the current state, with the remaining time extrapolated from the goals done.
    method GetReport(elapsed: real) returns (report: ProgressReport)
      ensures report.statuses == subGoals && report.totalSubGoals == |subGoals|
      ensures report.completedSubGoals == |CompletedIn(subGoals)| <= report.totalSubGoals
      ensures report.stepsCompleted == stepsCompleted && report.strategySwitches == strategySwitches
      ensures report.currentPhase == currentPhase && report.lastCheckpoint == lastCheckpoint
      ensures report.elapsedMinutes == elapsed
      ensures report.completedSubGoals > 0 ==>
        report.estimatedRemainingMinutes * report.completedSubGoals as real
          == elapsed * (report.totalSubGoals - report.completedSubGoals) as real
      ensures report.completedSubGoals == 0 ==> report.estimatedRemainingMinutes == 0.0
    {
      var completed := |set id | id in subGoals && subGoals[id] == Completed|;
      var total := |subGoals|;
      assert CompletedIn(subGoals) == set id | id in subGoals && subGoals[id] == Completed;
      CompletedAmongAll(subGoals);
      var remaining := 0.0;
      if completed > 0 && total > completed {
        var average := elapsed / completed as real;
        remaining := average * (total - completed) as real;
        Extrapolated(elapsed, completed as real, (total - completed) as real);
        assert remaining * completed as real == elapsed * (total - completed) as real;
      } else if completed > 0 {
        assert total - completed == 0 && elapsed * 0.0 == 0.0;
        assert remaining * completed as real == elapsed * (total - completed) as real;
      }
      report := ProgressReport(total, completed, currentPhase, stepsCompleted, elapsed, strategySwitches,
                               subGoals, remaining, lastCheckpoint);
    }
  }

  lemma Extrapolated(elapsed: real, done: real, left: real)
    requires done > 0.0
    ensures elapsed / done * left * done == elapsed * left
  {
    var average := elapsed / done;
    assert average * done == elapsed;
    assert average * left * done == average * done * left;
  }

  lemma CompletedAmongAll(statuses: map<string, Status>)
    ensures |CompletedIn(statuses)| <= |statuses|
  {
    SubsetIsSmaller(CompletedIn(statuses), statuses.Keys);
    assert |statuses.Keys| == |statuses|;
  }
}
