/**
 * Data model of a CODE_TASK file (spec/src/types.ts).
 *
 * A task holds an ordered list of E2E tasks and every E2E task an ordered list
 * of steps. Both lists use the same node shape: a 1-based `index`, and `prev` /
 * `next` pointers that are either a number or one of the sentinels 'start' /
 * 'end'. The node shape is the generic `Item<P>`; `P` carries the fields that
 * differ between a step and an E2E task.
 */
module Types {

  datatype Option<T> = None | Some(value: T) {
    function GetOr(default: T): T {
      match this
      case Some(v) => v
      case None => default
    }
  }

  /** A position in a list: a number, or one of the two sentinels. */
  datatype PositionRef = Num(n: int) | Start | End

  /** The three step statuses; an absent status counts as Pending. */
  datatype StepStatus = Pending | Completed | NeedAstNode

  /**
   * A step's action. The declared type allows only these three strings, but
   * a partial update stores the command-line text unchecked, so the model
   * keeps the action as a string.
   */
  const MODIFY: string := "modify"
  const CREATE: string := "create"
  const DELETE: string := "delete"

  predicate IsAction(a: string) {
    a == MODIFY || a == CREATE || a == DELETE
  }

  /** Identifies one AST node of a repository. */
  datatype NodeId = NodeId(modPath: string, pkgPath: string, name: string)

  /**
   * The value stored in a step's `stepNode`: normally an array of node ids,
   * but the command line and batch files store a single object.
   */
  datatype StepNode = NodeList(nodes: seq<NodeId>) | SingleNode(node: NodeId)

  /** A node of one of the two linked lists (index + prev/next pointers). */
  datatype Item<P> = Item(index: PositionRef, prev: PositionRef, next: PositionRef, data: P)

  /** The fields of a step other than its list position. */
  datatype StepData = StepData(
    e2eIndex: int,
    name: string,
    filePath: string,
    relatedNodes: seq<string>,
    action: string,
    completed: bool,
    status: Option<StepStatus>,
    stepNode: Option<StepNode>,
    additionalInfo: Option<string>)

  type Step = Item<StepData>

  /** The fields of an E2E task other than its list position. */
  datatype E2EData = E2EData(
    name: string,
    e2eInput: string,
    e2eOutput: string,
    completed: bool,
    steps: seq<Step>)

  type E2ETask = Item<E2EData>

  datatype Metadata = Metadata(repoName: string, createdAt: string, taskName: string, description: string)

  datatype CodeTask = CodeTask(metadata: Metadata, e2eTasks: seq<E2ETask>)

  /** True of the sentinel positions 'start' and 'end'. */
  predicate IsSentinel(p: PositionRef) {
    p == Start || p == End
  }

  /** The status a reader sees: an absent status is Pending. */
  function EffectiveStatus(s: StepData): (st: StepStatus)
    ensures s.status.None? ==> st == Pending
    ensures s.status.Some? ==> st == s.status.value
  {
    s.status.GetOr(Pending)
  }

  /**
   * Errors the commands raise. Each carries what the source's message names.
   */
  datatype Error =
    | E2ENotFound(e2eIndex: int)
    | StepNotFound(stepIndex: int, e2eIndex: int)
    | IllegalTransition(operation: string, stepE2EIndex: int, stepPosition: PositionRef)
    | InvalidBatchFormat
    | MissingIndex(which: string)
    | InvalidIndexFormat(which: string)
    | MissingArguments
    | InvalidAction
    | InvalidJson(option: string)
    | ManualCompleteRejected

  datatype Result<T> = Ok(value: T) | Err(error: Error)

  /** What a delete reports: the removed node's name and index. */
  datatype Removed = Removed(name: string, index: int)

  /** A positional index argument: missing or empty, not a number, or a number. */
  datatype IndexArg = NoIndex | Unparsable | Parsed(n: int)

  /** A command-line string that only counts when non-empty (JS truthiness). */
  function NonEmpty(s: string): (r: Option<string>)
    ensures r.None? <==> s == ""
    ensures r.Some? ==> r.value == s
  {
    if s == "" then None else Some(s)
  }
}
