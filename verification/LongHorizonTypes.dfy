/** The data the long-horizon scheduler works on. */
module LongHorizonTypes {

  datatype Status = Pending | InProgress | Completed | Failed

  // A goal is shared between the manager's list and the execution order, and its status changes in place.
  class SubGoal {
    const id: string
    const dependencies: seq<string>
    var status: Status

    constructor (id: string, dependencies: seq<string>)
      ensures this.id == id && this.dependencies == dependencies && status == Pending
    {
      this.id := id;
      this.dependencies := dependencies;
      status := Pending;
    }
  }

  datatype PhaseResult = PhaseResult(subGoalId: string, success: bool, stepsTaken: nat)
}
