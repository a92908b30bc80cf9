/**
 * The step operations of spec/src/commands/step-update.ts.
 *
 * Each operation finds the E2E task by its index, then works on that task's
 * step list with the ordered-list engine. For each operation a function over
 * the E2E list says what the operation produces (`...In`), and a method on the
 * store performs it step by step, as the source does, and is proved to
 * produce exactly that. The lemmas at the end state what the source promises
 * about the results.
 */
module StepUpdate {
  import opened Types
  import opened OrderedList
  import opened ListInvariants
  import opened TaskStore

  // ---------------------------------------------------------------------
  // Inputs
  // ---------------------------------------------------------------------

  /** The fields a partial update may carry (`Partial<Step>`); None = not supplied. */
  datatype StepPatch = StepPatch(
    name: Option<string>,
    filePath: Option<string>,
    relatedNodes: Option<seq<string>>,
    action: Option<string>,
    stepNode: Option<StepNode>,
    additionalInfo: Option<string>)

  /** The fields given for a new step; a missing `relatedNodes` becomes `[]`. */
  datatype NewStep = NewStep(
    name: string,
    filePath: string,
    relatedNodes: Option<seq<string>>,
    action: string,
    stepNode: Option<StepNode>,
    additionalInfo: Option<string>)

  /** One entry of a batch file; its `stepNode` is a single node object. */
  datatype BatchStepInput = BatchStepInput(
    name: string,
    filePath: string,
    action: string,
    relatedNodes: Option<seq<string>>,
    stepNode: Option<NodeId>,
    additionalInfo: Option<string>)

  // ---------------------------------------------------------------------
  // The status guard and the status of a new step
  // ---------------------------------------------------------------------

  /**
   * checkStepStatus: a step in NEED_AST_NODE may only be deleted, or updated
   * with a stepNode; every other step passes.
   */
  function CheckStepStatus(step: Step, operation: string, updates: Option<StepPatch>): (r: Result<()>)
    ensures r.Ok? <==>
      || EffectiveStatus(step.data) != NeedAstNode
      || operation == "delete"
      || (operation == "update" && updates.Some? && updates.value.stepNode.Some?)
    ensures r.Err? ==> r.error == IllegalTransition(operation, step.data.e2eIndex, step.index)
  {
    if step.data.status == Some(NeedAstNode) then
      if operation == "delete" then Ok(())
      else if operation == "update" && updates.Some? && updates.value.stepNode.Some? then Ok(())
      else Err(IllegalTransition(operation, step.data.e2eIndex, step.index))
    else Ok(())
  }

  /** A new step needs an AST node exactly when it modifies code and names no node. */
  function InitialStatus(action: string, stepNode: Option<StepNode>): StepStatus {
    if action == MODIFY && stepNode.None? then NeedAstNode else Pending
  }

  /** The record a new step gets, apart from its list position. */
  function NewStepData(e2eIndex: int, n: NewStep): StepData {
    StepData(e2eIndex, n.name, n.filePath, n.relatedNodes.GetOr([]), n.action, false,
             Some(InitialStatus(n.action, n.stepNode)), n.stepNode, n.additionalInfo)
  }

  /** The record a batch entry becomes. */
  function BatchStepData(e2eIndex: int, b: BatchStepInput): StepData {
    NewStepData(e2eIndex, NewStep(b.name, b.filePath, b.relatedNodes, b.action,
                                  if b.stepNode.Some? then Some(SingleNode(b.stepNode.value)) else None,
                                  b.additionalInfo))
  }

  function BatchData(e2eIndex: int, batch: seq<BatchStepInput>): (ds: seq<StepData>)
    ensures |ds| == |batch|
  {
    seq(|batch|, i requires 0 <= i < |batch| => BatchStepData(e2eIndex, batch[i]))
  }

  function BatchNames(batch: seq<BatchStepInput>): (names: seq<string>)
    ensures |names| == |batch|
  {
    seq(|batch|, i requires 0 <= i < |batch| => batch[i].name)
  }

  /** The field writes of updateStep. */
  function ApplyPatch(d: StepData, u: StepPatch): StepData {
    var d1 := d.(name := u.name.GetOr(d.name), filePath := u.filePath.GetOr(d.filePath),
                 relatedNodes := u.relatedNodes.GetOr(d.relatedNodes), action := u.action.GetOr(d.action));
    var d2 := if u.stepNode.Some? then
                d1.(stepNode := u.stepNode, status := if d1.status == Some(NeedAstNode) then Some(Pending) else d1.status)
              else d1;
    d2.(additionalInfo := if u.additionalInfo.Some? then u.additionalInfo else d2.additionalInfo)
  }

  // ---------------------------------------------------------------------
  // What each operation produces
  // ---------------------------------------------------------------------

  /** updateStep */
  function UpdateStepIn(tasks: seq<E2ETask>, e2eIndex: int, stepIndex: int, u: StepPatch): Result<(seq<E2ETask>, ())> {
    var ti := FindIndex(tasks, Num(e2eIndex));
    if ti == -1 then Err(E2ENotFound(e2eIndex))
    else
      var steps := tasks[ti].data.steps;
      var si := FindIndex(steps, Num(stepIndex));
      if si == -1 then Err(StepNotFound(stepIndex, e2eIndex))
      else
        var check := CheckStepStatus(steps[si], "update", Some(u));
        if check.Err? then Err(check.error)
        else Ok((WithSteps(tasks, ti, steps[si := steps[si].(data := ApplyPatch(steps[si].data, u))]), ()))
  }

  /** insertStep */
  function InsertStepIn(tasks: seq<E2ETask>, e2eIndex: int, afterStepIndex: int, n: NewStep): Result<(seq<E2ETask>, ())> {
    var ti := FindIndex(tasks, Num(e2eIndex));
    if ti == -1 then Err(E2ENotFound(e2eIndex))
    else
      var inserted := InsertAfter(tasks[ti].data.steps, afterStepIndex, NewStepData(e2eIndex, n));
      if inserted.None? then Err(StepNotFound(afterStepIndex, e2eIndex))
      else Ok((WithSteps(tasks, ti, inserted.value), ()))
  }

  /** deleteStep */
  function DeleteStepIn(tasks: seq<E2ETask>, e2eIndex: int, stepIndex: int): Result<(seq<E2ETask>, Removed)> {
    var ti := FindIndex(tasks, Num(e2eIndex));
    if ti == -1 then Err(E2ENotFound(e2eIndex))
    else
      var deleted := DeleteItem(tasks[ti].data.steps, stepIndex);
      if deleted.None? then Err(StepNotFound(stepIndex, e2eIndex))
      else Ok((WithSteps(tasks, ti, deleted.value.0), Removed(deleted.value.1.data.name, deleted.value.1.index.n)))
  }

  /** updateStepStatus: reports the step's name. */
  function SetStepCompletedIn(tasks: seq<E2ETask>, e2eIndex: int, stepIndex: int, completed: bool): Result<(seq<E2ETask>, string)> {
    var ti := FindIndex(tasks, Num(e2eIndex));
    if ti == -1 then Err(E2ENotFound(e2eIndex))
    else
      var steps := tasks[ti].data.steps;
      var si := FindIndex(steps, Num(stepIndex));
      if si == -1 then Err(StepNotFound(stepIndex, e2eIndex))
      else Ok((WithSteps(tasks, ti, steps[si := steps[si].(data := steps[si].data.(completed := completed))]), steps[si].data.name))
  }

  /**
   * batchCreateSteps, once the batch file has been read: None stands for a
   * file without a `steps` array. Reports the count and the names.
   */
  function BatchCreateStepsIn(tasks: seq<E2ETask>, e2eIndex: int, batch: Option<seq<BatchStepInput>>): Result<(seq<E2ETask>, (int, seq<string>))> {
    if batch.None? then Err(InvalidBatchFormat)
    else
      var ti := FindIndex(tasks, Num(e2eIndex));
      if ti == -1 then Err(E2ENotFound(e2eIndex))
      else Ok((WithSteps(tasks, ti, Append(tasks[ti].data.steps, BatchData(e2eIndex, batch.value))),
               (|batch.value|, BatchNames(batch.value))))
  }

  // ---------------------------------------------------------------------
  // The operations on the store
  // ---------------------------------------------------------------------

  method UpdateStep(store: Store, e2eIndex: int, stepIndex: int, u: StepPatch) returns (r: Result<()>)
    modifies store`e2eTasks
    ensures Committed(old(store.e2eTasks), UpdateStepIn(old(store.e2eTasks), e2eIndex, stepIndex, u), store.e2eTasks, r)
  {
    var ti := FindIndex(store.e2eTasks, Num(e2eIndex));
    if ti == -1 {
      return Err(E2ENotFound(e2eIndex));
    }
    var steps := store.e2eTasks[ti].data.steps;
    var si := FindIndex(steps, Num(stepIndex));
    if si == -1 {
      return Err(StepNotFound(stepIndex, e2eIndex));
    }
    var step := steps[si];
    var check := CheckStepStatus(step, "update", Some(u));
    if check.Err? {
      return Err(check.error);
    }
    var d := step.data;
    if u.name.Some? { d := d.(name := u.name.value); }
    if u.filePath.Some? { d := d.(filePath := u.filePath.value); }
    if u.relatedNodes.Some? { d := d.(relatedNodes := u.relatedNodes.value); }
    if u.action.Some? { d := d.(action := u.action.value); }
    assert d == step.data.(name := u.name.GetOr(step.data.name), filePath := u.filePath.GetOr(step.data.filePath),
                           relatedNodes := u.relatedNodes.GetOr(step.data.relatedNodes),
                           action := u.action.GetOr(step.data.action));
    if u.stepNode.Some? {
      d := d.(stepNode := u.stepNode);
      if d.status == Some(NeedAstNode) {
        d := d.(status := Some(Pending));
      }
    }
    if u.additionalInfo.Some? { d := d.(additionalInfo := u.additionalInfo); }
    assert d == ApplyPatch(step.data, u);
    store.e2eTasks := WithSteps(store.e2eTasks, ti, steps[si := step.(data := d)]);
    r := Ok(());
  }

  method InsertStep(store: Store, e2eIndex: int, afterStepIndex: int, n: NewStep) returns (r: Result<()>)
    modifies store`e2eTasks
    ensures Committed(old(store.e2eTasks), InsertStepIn(old(store.e2eTasks), e2eIndex, afterStepIndex, n), store.e2eTasks, r)
  {
    var ti := FindIndex(store.e2eTasks, Num(e2eIndex));
    if ti == -1 {
      return Err(E2ENotFound(e2eIndex));
    }
    var inserted := Insert(store.e2eTasks[ti].data.steps, afterStepIndex, NewStepData(e2eIndex, n));
    if inserted.None? {
      return Err(StepNotFound(afterStepIndex, e2eIndex));
    }
    store.e2eTasks := WithSteps(store.e2eTasks, ti, inserted.value);
    r := Ok(());
  }

  method DeleteStep(store: Store, e2eIndex: int, stepIndex: int) returns (r: Result<Removed>)
    modifies store`e2eTasks
    ensures Committed(old(store.e2eTasks), DeleteStepIn(old(store.e2eTasks), e2eIndex, stepIndex), store.e2eTasks, r)
  {
    var ti := FindIndex(store.e2eTasks, Num(e2eIndex));
    if ti == -1 {
      return Err(E2ENotFound(e2eIndex));
    }
    var deleted := Remove(store.e2eTasks[ti].data.steps, stepIndex);
    if deleted.None? {
      return Err(StepNotFound(stepIndex, e2eIndex));
    }
    var (rest, step) := deleted.value;
    store.e2eTasks := WithSteps(store.e2eTasks, ti, rest);
    r := Ok(Removed(step.data.name, step.index.n));
  }

  method UpdateStepStatus(store: Store, e2eIndex: int, stepIndex: int, completed: bool) returns (r: Result<string>)
    modifies store`e2eTasks
    ensures Committed(old(store.e2eTasks), SetStepCompletedIn(old(store.e2eTasks), e2eIndex, stepIndex, completed), store.e2eTasks, r)
  {
    var ti := FindIndex(store.e2eTasks, Num(e2eIndex));
    if ti == -1 {
      return Err(E2ENotFound(e2eIndex));
    }
    var steps := store.e2eTasks[ti].data.steps;
    var si := FindIndex(steps, Num(stepIndex));
    if si == -1 {
      return Err(StepNotFound(stepIndex, e2eIndex));
    }
    var step := steps[si];
    store.e2eTasks := WithSteps(store.e2eTasks, ti, steps[si := step.(data := step.data.(completed := completed))]);
    r := Ok(step.data.name);
  }

  method BatchCreateSteps(store: Store, e2eIndex: int, batch: Option<seq<BatchStepInput>>) returns (r: Result<(int, seq<string>)>)
    modifies store`e2eTasks
    ensures Committed(old(store.e2eTasks), BatchCreateStepsIn(old(store.e2eTasks), e2eIndex, batch), store.e2eTasks, r)
  {
    if batch.None? {
      return Err(InvalidBatchFormat);
    }
    var ti := FindIndex(store.e2eTasks, Num(e2eIndex));
    if ti == -1 {
      return Err(E2ENotFound(e2eIndex));
    }
    var inputs := batch.value;
    var names: seq<string> := [];
    var ds: seq<StepData> := [];
    var i := 0;
    while i < |inputs|
      invariant 0 <= i <= |inputs|
      invariant names == BatchNames(inputs)[..i]
      invariant ds == BatchData(e2eIndex, inputs)[..i]
    {
      names := names + [inputs[i].name];
      ds := ds + [BatchStepData(e2eIndex, inputs[i])];
      i := i + 1;
    }
    assert names == BatchNames(inputs) && ds == BatchData(e2eIndex, inputs);
    var steps := BatchAppend(store.e2eTasks[ti].data.steps, ds);
    store.e2eTasks := WithSteps(store.e2eTasks, ti, steps);
    r := Ok((|inputs|, names));
  }

  // ---------------------------------------------------------------------
  // The `step update` command (after the task file is read)
  // ---------------------------------------------------------------------

  /** A JSON-valued option: not given, not valid JSON, or the parsed value. */
  datatype JsonArg<T> = NotGiven | Malformed | Value(v: T)

  /** The arguments and options of `step update`; "" stands for an omitted string. */
  datatype StepArgs = StepArgs(
    e2eIndex: IndexArg,
    stepIndex: IndexArg,
    name: string,
    filePath: string,
    action: string,
    delete: bool,
    insert: bool,
    complete: bool,
    uncomplete: bool,
    batch: Option<Option<seq<BatchStepInput>>>,
    relatedNodes: JsonArg<seq<string>>,
    stepNode: JsonArg<StepNode>,
    additionalInfo: string)

  /** What the command did. */
  datatype StepReport =
    | BatchCreated(count: int, names: seq<string>)
    | StepDeleted(removed: Removed)
    | StepStatusSet(completed: bool, name: string)
    | StepUpdated
    | StepInserted

  function ParseJson<T>(a: JsonArg<T>, option: string): Result<Option<T>> {
    match a
    case NotGiven => Ok(None)
    case Malformed => Err(InvalidJson(option))
    case Value(v) => Ok(Some(v))
  }

  /** True when one of name, file_path and action is missing. */
  predicate SomeFieldMissing(a: StepArgs) {
    a.name == "" || a.filePath == "" || a.action == ""
  }

  /** The whole command: argument checks, then batch, delete, completion or the update/insert choice. */
  function StepCommand(tasks: seq<E2ETask>, a: StepArgs): Result<(seq<E2ETask>, StepReport)> {
    match a.e2eIndex
    case NoIndex => Err(MissingIndex("e2e_index"))
    case Unparsable => Err(InvalidIndexFormat("e2e_index"))
    case Parsed(e) =>
      if a.batch.Some? then
        match BatchCreateStepsIn(tasks, e, a.batch.value)
        case Err(err) => Err(err)
        case Ok((ts, (count, names))) => Ok((ts, BatchCreated(count, names)))
      else
        match a.stepIndex
        case NoIndex => Err(MissingIndex("step_index"))
        case Unparsable => Err(InvalidIndexFormat("step_index"))
        case Parsed(s) =>
          if a.delete then
            match DeleteStepIn(tasks, e, s)
            case Err(err) => Err(err)
            case Ok((ts, removed)) => Ok((ts, StepDeleted(removed)))
          else if a.complete || a.uncomplete then
            match SetStepCompletedIn(tasks, e, s, a.complete)
            case Err(err) => Err(err)
            case Ok((ts, name)) => Ok((ts, StepStatusSet(a.complete, name)))
          else SmartUpdate(tasks, e, s, a)
  }

  /**
   * The update/insert choice: an existing step with some of name, file_path
   * and action missing is updated with what was given; otherwise all three
   * are required and a new step is inserted after the largest index (after
   * 0 in an empty list) -- also when the named step exists.
   */
  function SmartUpdate(tasks: seq<E2ETask>, e: int, s: int, a: StepArgs): Result<(seq<E2ETask>, StepReport)> {
    var ti := FindIndex(tasks, Num(e));
    if ti == -1 then Err(E2ENotFound(e))
    else
      var steps := tasks[ti].data.steps;
      var stepExists := FindIndex(steps, Num(s)) != -1;
      if !stepExists && a.name == "" && a.filePath == "" && a.action == "" then Err(MissingArguments)
      else if stepExists && SomeFieldMissing(a) then
        match ParseJson(a.stepNode, "--step-node")
        case Err(err) => Err(err)
        case Ok(node) =>
          match ParseJson(a.relatedNodes, "--related-nodes")
          case Err(err) => Err(err)
          case Ok(related) =>
            var patch := StepPatch(NonEmpty(a.name), NonEmpty(a.filePath), related, NonEmpty(a.action),
                                   node, NonEmpty(a.additionalInfo));
            match UpdateStepIn(tasks, e, s, patch)
            case Err(err) => Err(err)
            case Ok((ts, _)) => Ok((ts, StepUpdated))
      else if SomeFieldMissing(a) then Err(MissingArguments)
      else if !IsAction(a.action) then Err(InvalidAction)
      else
        match ParseJson(a.relatedNodes, "--related-nodes")
        case Err(err) => Err(err)
        case Ok(related) =>
          match ParseJson(a.stepNode, "--step-node")
          case Err(err) => Err(err)
          case Ok(node) =>
            var anchor := if |steps| == 0 then 0 else MaxIndex(steps);
            match InsertStepIn(tasks, e, anchor, ArgsStep(a, related, node))
            case Err(err) => Err(err)
            case Ok((ts, _)) => Ok((ts, StepInserted))
  }

  /** The new step the command inserts; `relatedNodes` defaults to []. */
  function ArgsStep(a: StepArgs, related: Option<seq<string>>, node: Option<StepNode>): NewStep {
    NewStep(a.name, a.filePath, Some(related.GetOr([])), a.action, node, NonEmpty(a.additionalInfo))
  }

  /** The `step update` action on the store. */
  method RunStepCommand(store: Store, a: StepArgs) returns (r: Result<StepReport>)
    modifies store`e2eTasks
    ensures Committed(old(store.e2eTasks), StepCommand(old(store.e2eTasks), a), store.e2eTasks, r)
  {
    if a.e2eIndex.NoIndex? {
      return Err(MissingIndex("e2e_index"));
    }
    if a.e2eIndex.Unparsable? {
      return Err(InvalidIndexFormat("e2e_index"));
    }
    var e := a.e2eIndex.n;
    if a.batch.Some? {
      var res := BatchCreateSteps(store, e, a.batch.value);
      return if res.Ok? then Ok(BatchCreated(res.value.0, res.value.1)) else Err(res.error);
    }
    if a.stepIndex.NoIndex? {
      return Err(MissingIndex("step_index"));
    }
    if a.stepIndex.Unparsable? {
      return Err(InvalidIndexFormat("step_index"));
    }
    var s := a.stepIndex.n;
    if a.delete {
      var res := DeleteStep(store, e, s);
      return if res.Ok? then Ok(StepDeleted(res.value)) else Err(res.error);
    }
    if a.complete || a.uncomplete {
      var res := UpdateStepStatus(store, e, s, a.complete);
      return if res.Ok? then Ok(StepStatusSet(a.complete, res.value)) else Err(res.error);
    }
    r := RunSmartUpdate(store, e, s, a);
  }

  method RunSmartUpdate(store: Store, e: int, s: int, a: StepArgs) returns (r: Result<StepReport>)
    modifies store`e2eTasks
    ensures Committed(old(store.e2eTasks), SmartUpdate(old(store.e2eTasks), e, s, a), store.e2eTasks, r)
  {
    var ti := FindIndex(store.e2eTasks, Num(e));
    if ti == -1 {
      return Err(E2ENotFound(e));
    }
    var steps := store.e2eTasks[ti].data.steps;
    var stepExists := FindIndex(steps, Num(s)) != -1;
    if !stepExists && a.name == "" && a.filePath == "" && a.action == "" {
      return Err(MissingArguments);
    }
    if stepExists && SomeFieldMissing(a) {
      var node := ParseJson(a.stepNode, "--step-node");
      if node.Err? {
        return Err(node.error);
      }
      var related := ParseJson(a.relatedNodes, "--related-nodes");
      if related.Err? {
        return Err(related.error);
      }
      var patch := StepPatch(NonEmpty(a.name), NonEmpty(a.filePath), related.value, NonEmpty(a.action),
                             node.value, NonEmpty(a.additionalInfo));
      var res := UpdateStep(store, e, s, patch);
      return if res.Ok? then Ok(StepUpdated) else Err(res.error);
    }
    if SomeFieldMissing(a) {
      return Err(MissingArguments);
    }
    if !IsAction(a.action) {
      return Err(InvalidAction);
    }
    var related := ParseJson(a.relatedNodes, "--related-nodes");
    if related.Err? {
      return Err(related.error);
    }
    var node := ParseJson(a.stepNode, "--step-node");
    if node.Err? {
      return Err(node.error);
    }
    var anchor := if |steps| == 0 then 0 else MaxIndex(steps);
    var res := InsertStep(store, e, anchor, ArgsStep(a, related.value, node.value));
    r := if res.Ok? then Ok(StepInserted) else Err(res.error);
  }
}
