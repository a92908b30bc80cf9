/**
 * The E2E task operations of spec/src/commands/e2e-update.ts.
 *
 * The E2E list is the same kind of ordered list as a step list, so every
 * operation is the ordered-list engine applied to `taskData.e2eTasks`. As for
 * steps, a function over the E2E list says what each operation produces and
 * a method on the store performs it step by step.
 *
 * The renumber pass of insert and delete changes the E2E tasks' own indices
 * and pointers only: the `e2eIndex` recorded in their steps is left as it was.
 */
module E2EUpdate {
  import opened Types
  import opened OrderedList
  import opened TaskStore

  /** The three fields an E2E task is created with; also one entry of a batch file. */
  datatype E2EInput = E2EInput(name: string, e2eInput: string, e2eOutput: string)

  /** The fields an update may carry; None = not supplied. */
  datatype E2EPatch = E2EPatch(name: Option<string>, e2eInput: Option<string>, e2eOutput: Option<string>)

  /** A new E2E task: not completed and without steps. */
  function NewE2EData(n: E2EInput): E2EData {
    E2EData(n.name, n.e2eInput, n.e2eOutput, false, [])
  }

  function BatchE2EData(batch: seq<E2EInput>): (ds: seq<E2EData>)
    ensures |ds| == |batch|
  {
    seq(|batch|, i requires 0 <= i < |batch| => NewE2EData(batch[i]))
  }

  function BatchE2ENames(batch: seq<E2EInput>): (names: seq<string>)
    ensures |names| == |batch|
  {
    seq(|batch|, i requires 0 <= i < |batch| => batch[i].name)
  }

  /** The field writes of updateE2ETask. */
  function ApplyE2EPatch(d: E2EData, u: E2EPatch): E2EData {
    d.(name := u.name.GetOr(d.name), e2eInput := u.e2eInput.GetOr(d.e2eInput), e2eOutput := u.e2eOutput.GetOr(d.e2eOutput))
  }

  // ---------------------------------------------------------------------
  // What each operation produces
  // ---------------------------------------------------------------------

  /** updateE2ETask */
  function UpdateE2EIn(tasks: seq<E2ETask>, index: int, u: E2EPatch): Result<(seq<E2ETask>, ())> {
    var ti := FindIndex(tasks, Num(index));
    if ti == -1 then Err(E2ENotFound(index))
    else Ok((tasks[ti := tasks[ti].(data := ApplyE2EPatch(tasks[ti].data, u))], ()))
  }

  /** insertE2ETask */
  function InsertE2EIn(tasks: seq<E2ETask>, afterIndex: int, n: E2EInput): Result<(seq<E2ETask>, ())> {
    var inserted := InsertAfter(tasks, afterIndex, NewE2EData(n));
    if inserted.None? then Err(E2ENotFound(afterIndex)) else Ok((inserted.value, ()))
  }

  /** deleteE2ETask: reports the removed task's name and index. */
  function DeleteE2EIn(tasks: seq<E2ETask>, index: int): Result<(seq<E2ETask>, Removed)> {
    var deleted := DeleteItem(tasks, index);
    if deleted.None? then Err(E2ENotFound(index))
    else Ok((deleted.value.0, Removed(deleted.value.1.data.name, deleted.value.1.index.n)))
  }

  /** updateE2EStatus: reports the task's name. */
  function SetE2ECompletedIn(tasks: seq<E2ETask>, index: int, completed: bool): Result<(seq<E2ETask>, string)> {
    var ti := FindIndex(tasks, Num(index));
    if ti == -1 then Err(E2ENotFound(index))
    else Ok((tasks[ti := tasks[ti].(data := tasks[ti].data.(completed := completed))], tasks[ti].data.name))
  }

  /**
   * batchCreateE2ETasks, once the batch file has been read: None stands for
   * a file without an `e2eTasks` array. Reports the count and the names.
   */
  function BatchCreateE2EIn(tasks: seq<E2ETask>, batch: Option<seq<E2EInput>>): Result<(seq<E2ETask>, (int, seq<string>))> {
    if batch.None? then Err(InvalidBatchFormat)
    else Ok((Append(tasks, BatchE2EData(batch.value)), (|batch.value|, BatchE2ENames(batch.value))))
  }

  // ---------------------------------------------------------------------
  // The operations on the store
  // ---------------------------------------------------------------------

  method UpdateE2E(store: Store, index: int, u: E2EPatch) returns (r: Result<()>)
    modifies store`e2eTasks
    ensures Committed(old(store.e2eTasks), UpdateE2EIn(old(store.e2eTasks), index, u), store.e2eTasks, r)
  {
    var ti := FindIndex(store.e2eTasks, Num(index));
    if ti == -1 {
      return Err(E2ENotFound(index));
    }
    var task := store.e2eTasks[ti];
    var d := task.data;
    if u.name.Some? { d := d.(name := u.name.value); }
    if u.e2eInput.Some? { d := d.(e2eInput := u.e2eInput.value); }
    if u.e2eOutput.Some? { d := d.(e2eOutput := u.e2eOutput.value); }
    store.e2eTasks := store.e2eTasks[ti := task.(data := d)];
    r := Ok(());
  }

  method InsertE2E(store: Store, afterIndex: int, n: E2EInput) returns (r: Result<()>)
    modifies store`e2eTasks
    ensures Committed(old(store.e2eTasks), InsertE2EIn(old(store.e2eTasks), afterIndex, n), store.e2eTasks, r)
  {
    var inserted := Insert(store.e2eTasks, afterIndex, NewE2EData(n));
    if inserted.None? {
      return Err(E2ENotFound(afterIndex));
    }
    store.e2eTasks := inserted.value;
    r := Ok(());
  }

  method DeleteE2E(store: Store, index: int) returns (r: Result<Removed>)
    modifies store`e2eTasks
    ensures Committed(old(store.e2eTasks), DeleteE2EIn(old(store.e2eTasks), index), store.e2eTasks, r)
  {
    var deleted := Remove(store.e2eTasks, index);
    if deleted.None? {
      return Err(E2ENotFound(index));
    }
    var (rest, task) := deleted.value;
    store.e2eTasks := rest;
    r := Ok(Removed(task.data.name, task.index.n));
  }

  method UpdateE2EStatus(store: Store, index: int, completed: bool) returns (r: Result<string>)
    modifies store`e2eTasks
    ensures Committed(old(store.e2eTasks), SetE2ECompletedIn(old(store.e2eTasks), index, completed), store.e2eTasks, r)
  {
    var ti := FindIndex(store.e2eTasks, Num(index));
    if ti == -1 {
      return Err(E2ENotFound(index));
    }
    var task := store.e2eTasks[ti];
    store.e2eTasks := store.e2eTasks[ti := task.(data := task.data.(completed := completed))];
    r := Ok(task.data.name);
  }

  method BatchCreateE2E(store: Store, batch: Option<seq<E2EInput>>) returns (r: Result<(int, seq<string>)>)
    modifies store`e2eTasks
    ensures Committed(old(store.e2eTasks), BatchCreateE2EIn(old(store.e2eTasks), batch), store.e2eTasks, r)
  {
    if batch.None? {
      return Err(InvalidBatchFormat);
    }
    var inputs := batch.value;
    var names: seq<string> := [];
    var ds: seq<E2EData> := [];
    var i := 0;
    while i < |inputs|
      invariant 0 <= i <= |inputs|
      invariant names == BatchE2ENames(inputs)[..i]
      invariant ds == BatchE2EData(inputs)[..i]
    {
      names := names + [inputs[i].name];
      ds := ds + [NewE2EData(inputs[i])];
      i := i + 1;
    }
    assert names == BatchE2ENames(inputs) && ds == BatchE2EData(inputs);
    store.e2eTasks := BatchAppend(store.e2eTasks, ds);
    r := Ok((|inputs|, names));
  }

  // ---------------------------------------------------------------------
  // The `e2e update` command (after the task file is read)
  // ---------------------------------------------------------------------

  /** The arguments and options of `e2e update`; "" stands for an omitted string. */
  datatype E2EArgs = E2EArgs(
    index: IndexArg,
    name: string,
    input: string,
    output: string,
    delete: bool,
    insert: bool,
    complete: bool,
    uncomplete: bool,
    batch: Option<Option<seq<E2EInput>>>)

  /** What the command did. */
  datatype E2EReport =
    | E2EBatchCreated(count: int, names: seq<string>)
    | E2EDeleted(removed: Removed)
    | E2EUncompleted(index: int, name: string)
    | E2EInserted(index: int)
    | E2EUpdated(index: int)

  /**
   * The index the command works on, and whether it inserts: after 0 in an
   * empty list; after the largest index when no index is given or the given
   * one does not exist; the given index, in update mode, when it exists.
   */
  function SelectIndex(tasks: seq<E2ETask>, index: IndexArg): Result<(int, bool)> {
    if |tasks| == 0 then Ok((0, true))
    else
      match index
      case NoIndex => Ok((MaxIndex(tasks), true))
      case Unparsable => Err(InvalidIndexFormat("index"))
      case Parsed(n) =>
        if FindIndex(tasks, Num(n)) == -1 then Ok((MaxIndex(tasks), true)) else Ok((n, false))
  }

  /** The whole command: batch, argument check, index choice, then delete, completion, insert or update. */
  function E2ECommand(tasks: seq<E2ETask>, a: E2EArgs): Result<(seq<E2ETask>, E2EReport)> {
    if a.batch.Some? then
      match BatchCreateE2EIn(tasks, a.batch.value)
      case Err(err) => Err(err)
      case Ok((ts, (count, names))) => Ok((ts, E2EBatchCreated(count, names)))
    else if a.name == "" || a.input == "" || a.output == "" then Err(MissingArguments)
    else
      match SelectIndex(tasks, a.index)
      case Err(err) => Err(err)
      case Ok((k, insertMode)) => E2EAction(tasks, a, k, insertMode)
  }

  /** What the command does once the index k and the mode are chosen. */
  function E2EAction(tasks: seq<E2ETask>, a: E2EArgs, k: int, insertMode: bool): Result<(seq<E2ETask>, E2EReport)> {
    if a.delete then
      match DeleteE2EIn(tasks, k)
      case Err(err) => Err(err)
      case Ok((ts, removed)) => Ok((ts, E2EDeleted(removed)))
    else if a.complete then Err(ManualCompleteRejected)
    else if a.uncomplete then
      match SetE2ECompletedIn(tasks, k, false)
      case Err(err) => Err(err)
      case Ok((ts, name)) => Ok((ts, E2EUncompleted(k, name)))
    else if insertMode || a.insert then
      match InsertE2EIn(tasks, k, E2EInput(a.name, a.input, a.output))
      case Err(err) => Err(err)
      case Ok((ts, _)) => Ok((ts, E2EInserted(k + 1)))
    else
      match UpdateE2EIn(tasks, k, E2EPatch(Some(a.name), Some(a.input), Some(a.output)))
      case Err(err) => Err(err)
      case Ok((ts, _)) => Ok((ts, E2EUpdated(k)))
  }

  /** The `e2e update` action on the store. */
  method RunE2ECommand(store: Store, a: E2EArgs) returns (r: Result<E2EReport>)
    modifies store`e2eTasks
    ensures Committed(old(store.e2eTasks), E2ECommand(old(store.e2eTasks), a), store.e2eTasks, r)
  {
    if a.batch.Some? {
      var res := BatchCreateE2E(store, a.batch.value);
      return if res.Ok? then Ok(E2EBatchCreated(res.value.0, res.value.1)) else Err(res.error);
    }
    if a.name == "" || a.input == "" || a.output == "" {
      return Err(MissingArguments);
    }
    var choice := SelectIndex(store.e2eTasks, a.index);
    if choice.Err? {
      return Err(choice.error);
    }
    r := RunE2EAction(store, a, choice.value.0, choice.value.1);
  }

  method RunE2EAction(store: Store, a: E2EArgs, k: int, insertMode: bool) returns (r: Result<E2EReport>)
    modifies store`e2eTasks
    ensures Committed(old(store.e2eTasks), E2EAction(old(store.e2eTasks), a, k, insertMode), store.e2eTasks, r)
  {
    if a.delete {
      var res := DeleteE2E(store, k);
      return if res.Ok? then Ok(E2EDeleted(res.value)) else Err(res.error);
    }
    if a.complete {
      return Err(ManualCompleteRejected);
    }
    if a.uncomplete {
      var res := UpdateE2EStatus(store, k, false);
      return if res.Ok? then Ok(E2EUncompleted(k, res.value)) else Err(res.error);
    }
    if insertMode || a.insert {
      var res := InsertE2E(store, k, E2EInput(a.name, a.input, a.output));
      return if res.Ok? then Ok(E2EInserted(k + 1)) else Err(res.error);
    }
    var res := UpdateE2E(store, k, E2EPatch(Some(a.name), Some(a.input), Some(a.output)));
    r := if res.Ok? then Ok(E2EUpdated(k)) else Err(res.error);
  }
}
