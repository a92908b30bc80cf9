/**
 * The in-memory CODE_TASK that the update commands edit in place
 * (`taskData` in spec/src/commands/step-update.ts and e2e-update.ts).
 *
 * The commands read the task file, change `taskData.e2eTasks` step by step,
 * and write the whole task back. Here the task is an object whose E2E list is
 * a field the command methods reassign; what each command does to that list
 * is given by a function over `seq<E2ETask>` in the module of the command.
 */
module TaskStore {
  import opened Types

  class Store {
    var metadata: Metadata
    var e2eTasks: seq<E2ETask>

    constructor (metadata: Metadata, e2eTasks: seq<E2ETask>)
      ensures this.metadata == metadata && this.e2eTasks == e2eTasks
    {
      this.metadata := metadata;
      this.e2eTasks := e2eTasks;
    }
  }

  /** The E2E list with the steps of the task at storage position ti replaced. */
  function WithSteps(tasks: seq<E2ETask>, ti: int, steps: seq<Step>): (r: seq<E2ETask>)
    requires 0 <= ti < |tasks|
    ensures |r| == |tasks|
    ensures r[ti].index == tasks[ti].index && r[ti].prev == tasks[ti].prev && r[ti].next == tasks[ti].next
    ensures r[ti].data == tasks[ti].data.(steps := steps)
    ensures forall p :: 0 <= p < |tasks| && p != ti ==> r[p] == tasks[p]
  {
    tasks[ti := tasks[ti].(data := tasks[ti].data.(steps := steps))]
  }

  /**
   * What a command does to the store: on success the E2E list becomes the
   * computed one and the command's report is returned; on failure nothing is
   * written and the error is returned.
   */
  predicate Committed<T(==)>(before: seq<E2ETask>, outcome: Result<(seq<E2ETask>, T)>, after: seq<E2ETask>, r: Result<T>) {
    match outcome
    case Ok(v) => after == v.0 && r == Ok(v.1)
    case Err(e) => after == before && r == Err(e)
  }
}
