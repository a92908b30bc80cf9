/**
 * What the E2E task operations and the `e2e update` command promise, stated
 * over the functions of E2EUpdate.
 */
module E2EProperties {
  import opened Types
  import opened OrderedList
  import opened ListInvariants
  import opened TaskStore
  import opened E2EUpdate

  // ---------------------------------------------------------------------
  // updateE2ETask and updateE2EStatus
  // ---------------------------------------------------------------------

  /**
   * updateE2ETask fails exactly when no task has the index; otherwise it
   * changes the supplied fields of that one task and nothing else: not its
   * position, its completion or its steps.
   */
  lemma UpdateE2EOutcome(tasks: seq<E2ETask>, i: int, u: E2EPatch)
    ensures var r := UpdateE2EIn(tasks, i, u); var ti := FindIndex(tasks, Num(i));
      && (ti == -1 <==> r.Err?)
      && (r.Err? ==> r.error == E2ENotFound(i))
      && (r.Ok? ==>
            var ts := r.value.0; var t := tasks[ti];
            && |ts| == |tasks| && (forall p :: 0 <= p < |tasks| && p != ti ==> ts[p] == tasks[p])
            && ts[ti].index == t.index && ts[ti].prev == t.prev && ts[ti].next == t.next
            && ts[ti].data.completed == t.data.completed && ts[ti].data.steps == t.data.steps
            && ts[ti].data.name == u.name.GetOr(t.data.name)
            && ts[ti].data.e2eInput == u.e2eInput.GetOr(t.data.e2eInput)
            && ts[ti].data.e2eOutput == u.e2eOutput.GetOr(t.data.e2eOutput))
  {
  }

  /**
   * updateE2EStatus fails exactly when no task has the index; otherwise it
   * changes only that task's completion and reports its name.
   */
  lemma SetE2ECompletedOutcome(tasks: seq<E2ETask>, i: int, c: bool)
    ensures var r := SetE2ECompletedIn(tasks, i, c); var ti := FindIndex(tasks, Num(i));
      && (ti == -1 <==> r.Err?)
      && (r.Err? ==> r.error == E2ENotFound(i))
      && (r.Ok? ==>
            && r.value.1 == tasks[ti].data.name
            && |r.value.0| == |tasks|
            && (forall p :: 0 <= p < |tasks| && p != ti ==> r.value.0[p] == tasks[p])
            && r.value.0[ti] == tasks[ti].(data := tasks[ti].data.(completed := c)))
  {
  }

  /** Setting a task's completion and setting it back restores the list. */
  lemma {:induction false} E2ECompletionRoundTrip(tasks: seq<E2ETask>, i: int, c: bool)
    requires SetE2ECompletedIn(tasks, i, c).Ok?
    ensures var t := tasks[FindIndex(tasks, Num(i))];
      SetE2ECompletedIn(SetE2ECompletedIn(tasks, i, c).value.0, i, t.data.completed) == Ok((tasks, t.data.name))
  {
    var ti := FindIndex(tasks, Num(i));
    var ts := SetE2ECompletedIn(tasks, i, c).value.0;
    FindSameIndices(ts, tasks, Num(i));
    assert ts[ti := ts[ti].(data := ts[ti].data.(completed := tasks[ti].data.completed))] == tasks;
  }

  // ---------------------------------------------------------------------
  // insertE2ETask
  // ---------------------------------------------------------------------

  /**
   * insertE2ETask fails only when the list is non-empty and no task has the
   * anchor index. The new task is stored last, indexed one past the anchor
   * (1 in an empty list), with the given fields, not completed and without
   * steps; every other task keeps its record, steps included.
   */
  lemma InsertE2EOutcome(tasks: seq<E2ETask>, a: int, n: E2EInput)
    ensures var r := InsertE2EIn(tasks, a, n);
      && (r.Err? <==> |tasks| > 0 && FindIndex(tasks, Num(a)) == -1)
      && (r.Err? ==> r.error == E2ENotFound(a))
      && (r.Ok? ==>
            var ts := r.value.0; var k := |tasks|;
            && |ts| == k + 1
            && (forall p :: 0 <= p < k ==> ts[p].data == tasks[p].data)
            && ts[k].index == Num(if k == 0 then 1 else a + 1)
            && ts[k].data.name == n.name && ts[k].data.e2eInput == n.e2eInput && ts[k].data.e2eOutput == n.e2eOutput
            && !ts[k].data.completed && ts[k].data.steps == [])
  {
  }

  /**
   * In a densely numbered list, inserting after an existing index (or into
   * an empty list) succeeds, keeps the numbering dense and moves every task
   * above the anchor up by one; inserting after the last task also keeps
   * the chain consistent.
   */
  lemma {:induction false} InsertE2EKeepsInvariants(tasks: seq<E2ETask>, a: int, n: E2EInput)
    requires Dense(tasks) && (|tasks| == 0 || 1 <= a <= |tasks|)
    ensures InsertE2EIn(tasks, a, n).Ok?
    ensures var ts := InsertE2EIn(tasks, a, n).value.0;
      && Dense(ts)
      && (forall p :: 0 <= p < |tasks| ==> ts[p].index == Num(Moved(tasks[p].index.n, a, 1)))
      && (Linked(tasks) && (|tasks| == 0 || a == |tasks|) ==> Linked(ts))
  {
    InsertKeepsDense(tasks, a, NewE2EData(n));
    if Linked(tasks) && (|tasks| == 0 || a == |tasks|) {
      TailInsertKeepsLinks(tasks, a, NewE2EData(n));
    }
  }

  /** Every step records the index of the E2E task that holds it. */
  predicate StepsTagged(tasks: seq<E2ETask>) {
    forall p, q :: 0 <= p < |tasks| && 0 <= q < |tasks[p].data.steps| ==>
      tasks[p].index == Num(tasks[p].data.steps[q].data.e2eIndex)
  }

  /**
   * The renumber pass does not reach into the steps: after inserting in the
   * middle of a dense list whose steps are correctly tagged, any task above
   * the anchor that has steps leaves them tagged with its old index.
   */
  lemma {:induction false} InsertE2ELeavesStepTagsStale(tasks: seq<E2ETask>, a: int, n: E2EInput, p: int)
    requires Dense(tasks) && StepsTagged(tasks) && 1 <= a <= |tasks|
    requires 0 <= p < |tasks| && tasks[p].index.n > a && |tasks[p].data.steps| > 0
    ensures InsertE2EIn(tasks, a, n).Ok?
    ensures !StepsTagged(InsertE2EIn(tasks, a, n).value.0)
  {
    InsertE2EKeepsInvariants(tasks, a, n);
    var ts := InsertE2EIn(tasks, a, n).value.0;
    assert ts[p].index == Num(tasks[p].index.n + 1);
    assert ts[p].data.steps[0] == tasks[p].data.steps[0];
    assert ts[p].index != Num(ts[p].data.steps[0].data.e2eIndex);
  }

  // ---------------------------------------------------------------------
  // deleteE2ETask
  // ---------------------------------------------------------------------

  /**
   * deleteE2ETask fails exactly when no task has the index; it reports the
   * removed task's name and index, and the other tasks keep their records
   * in their storage order.
   */
  lemma DeleteE2EOutcome(tasks: seq<E2ETask>, t: int)
    ensures var r := DeleteE2EIn(tasks, t); var pos := FindIndex(tasks, Num(t));
      && (pos == -1 <==> r.Err?)
      && (r.Err? ==> r.error == E2ENotFound(t))
      && (r.Ok? ==>
            && r.value.1 == Removed(tasks[pos].data.name, t)
            && |r.value.0| == |tasks| - 1
            && (forall q :: 0 <= q < |r.value.0| ==> r.value.0[q].data == tasks[Before(q, pos)].data))
  {
  }

  /**
   * In a densely numbered list, deleting an existing index succeeds and
   * keeps the numbering dense; deleting the first or the last task of a
   * consistent chain keeps the chain consistent.
   */
  lemma {:induction false} DeleteE2EKeepsInvariants(tasks: seq<E2ETask>, t: int)
    requires Dense(tasks) && 1 <= t <= |tasks|
    ensures DeleteE2EIn(tasks, t).Ok?
    ensures var ts := DeleteE2EIn(tasks, t).value.0;
      Dense(ts) && (Linked(tasks) && (t == 1 || t == |tasks|) ==> Linked(ts))
  {
    DeleteKeepsDense(tasks, t);
    if Linked(tasks) && t == |tasks| {
      TailDeleteKeepsLinks(tasks);
    } else if Linked(tasks) && t == 1 {
      HeadDeleteKeepsLinks(tasks);
    }
  }

  /** Appending a task after the last one and deleting it again restores the list. */
  lemma {:induction false} InsertThenDeleteE2ERestores(tasks: seq<E2ETask>, n: E2EInput)
    requires Dense(tasks) && Linked(tasks)
    ensures InsertE2EIn(tasks, |tasks|, n).Ok?
    ensures DeleteE2EIn(InsertE2EIn(tasks, |tasks|, n).value.0, |tasks| + 1) == Ok((tasks, Removed(n.name, |tasks| + 1)))
  {
    TailInsertThenDeleteRestores(tasks, NewE2EData(n));
  }

  // ---------------------------------------------------------------------
  // batchCreateE2ETasks
  // ---------------------------------------------------------------------

  /**
   * The tasks stored from position k of ts on are the batch b in order,
   * numbered from m + 1, with the given fields, not completed and without
   * steps.
   */
  predicate NewBatchTasks(ts: seq<E2ETask>, k: int, m: int, b: seq<E2EInput>) {
    && 0 <= k && |ts| == k + |b|
    && forall p :: k <= p < |ts| ==>
         && ts[p].index == Num(m + 1 + p - k)
         && ts[p].data.name == b[p - k].name && ts[p].data.e2eInput == b[p - k].e2eInput
         && ts[p].data.e2eOutput == b[p - k].e2eOutput
         && !ts[p].data.completed && ts[p].data.steps == []
  }

  /**
   * batchCreateE2ETasks fails only on a bad file format; otherwise it
   * reports the batch size and the names in order, keeps the existing tasks'
   * indices and records, and appends the batch numbered from one past the
   * largest index.
   */
  lemma {:induction false} BatchCreateE2EOutcome(tasks: seq<E2ETask>, batch: Option<seq<E2EInput>>)
    ensures var r := BatchCreateE2EIn(tasks, batch);
      && (r.Err? <==> batch.None?)
      && (r.Err? ==> r.error == InvalidBatchFormat)
      && (r.Ok? ==>
            var b := batch.value; var ts := r.value.0;
            && r.value.1.0 == |b| && |r.value.1.1| == |b|
            && (forall i :: 0 <= i < |b| ==> r.value.1.1[i] == b[i].name)
            && (forall p :: 0 <= p < |tasks| ==> ts[p].index == tasks[p].index && ts[p].data == tasks[p].data)
            && NewBatchTasks(ts, |tasks|, MaxIndex(tasks), b))
  {
    if batch.Some? {
      var b := batch.value;
      var ds := BatchE2EData(b);
      var ts := Append(tasks, ds);
      AppendChains(tasks, ds);
      forall p | |tasks| <= p < |ts|
        ensures ts[p].data == NewE2EData(b[p - |tasks|])
      {
        assert ts[p].data == ds[p - |tasks|];
      }
    }
  }

  /** A non-empty batch keeps a dense, consistently linked list so. */
  lemma {:induction false} BatchE2EKeepsInvariants(tasks: seq<E2ETask>, b: seq<E2EInput>)
    requires Dense(tasks) && Linked(tasks) && |b| > 0
    ensures BatchCreateE2EIn(tasks, Some(b)).Ok?
    ensures Dense(BatchCreateE2EIn(tasks, Some(b)).value.0) && Linked(BatchCreateE2EIn(tasks, Some(b)).value.0)
  {
    AppendKeepsInvariants(tasks, BatchE2EData(b));
  }

  // ---------------------------------------------------------------------
  // The `e2e update` command
  // ---------------------------------------------------------------------

  /** No batch, and name, input and output all given. */
  predicate FieldsGiven(a: E2EArgs) {
    a.batch.None? && a.name != "" && a.input != "" && a.output != ""
  }

  /** The index argument names no existing task (absent, or a number no task has). */
  predicate NamesNoTask(tasks: seq<E2ETask>, index: IndexArg) {
    index.NoIndex? || (index.Parsed? && FindIndex(tasks, Num(index.n)) == -1)
  }

  /**
   * Without a batch, every form of the command -- delete and the completion
   * switches included -- needs name, input and output.
   */
  lemma CommandNeedsAllFields(tasks: seq<E2ETask>, a: E2EArgs)
    requires a.batch.None?
    ensures (a.name == "" || a.input == "" || a.output == "") <==> E2ECommand(tasks, a) == Err(MissingArguments)
  {
  }

  /**
   * Without `--batch` or `-d` and with the three fields given, marking an E2E
   * task complete by hand is always refused; only an unparsable index on a
   * non-empty list is reported first.
   */
  lemma CompleteAlwaysRefused(tasks: seq<E2ETask>, a: E2EArgs)
    requires FieldsGiven(a) && !a.delete && a.complete
    ensures E2ECommand(tasks, a) == Err(InvalidIndexFormat("index")) || E2ECommand(tasks, a) == Err(ManualCompleteRejected)
    ensures !(|tasks| > 0 && a.index.Unparsable?) ==> E2ECommand(tasks, a) == Err(ManualCompleteRejected)
  {
  }

  /**
   * With no index, or one that no task has, the command appends a new task
   * after the largest index: in a dense, consistently linked list it is
   * numbered N+1, the list stays dense and linked, and no existing task
   * changes its index or record.
   */
  lemma {:induction false} DefaultInsertAppends(tasks: seq<E2ETask>, a: E2EArgs)
    requires FieldsGiven(a) && !a.delete && !a.complete && !a.uncomplete
    requires |tasks| == 0 || NamesNoTask(tasks, a.index)
    requires Dense(tasks) && Linked(tasks)
    ensures var r := E2ECommand(tasks, a);
      && r.Ok? && r.value.1 == E2EInserted(|tasks| + 1)
      && Dense(r.value.0) && Linked(r.value.0) && ExtendsByOne(tasks, r.value.0)
      && r.value.0[|tasks|].index == Num(|tasks| + 1) && r.value.0[|tasks|].data.name == a.name
  {
    var k := |tasks|;
    DenseMax(tasks);
    assert SelectIndex(tasks, a.index) == Ok((k, true));
    TailInsertExtends(tasks, NewE2EData(E2EInput(a.name, a.input, a.output)));
  }

  /**
   * With an existing index and no flags, the command updates that task in
   * place: the list keeps every index and pointer, and the task gets the
   * three given fields and keeps its completion and steps.
   */
  lemma ExistingIndexUpdatesInPlace(tasks: seq<E2ETask>, a: E2EArgs, n: int)
    requires FieldsGiven(a) && !a.delete && !a.complete && !a.uncomplete && !a.insert
    requires a.index == Parsed(n) && FindIndex(tasks, Num(n)) != -1
    ensures var r := E2ECommand(tasks, a); var ti := FindIndex(tasks, Num(n));
      && r.Ok? && r.value.1 == E2EUpdated(n)
      && |r.value.0| == |tasks|
      && (forall p :: 0 <= p < |tasks| && p != ti ==> r.value.0[p] == tasks[p])
      && r.value.0[ti] == tasks[ti].(data := tasks[ti].data.(name := a.name, e2eInput := a.input, e2eOutput := a.output))
  {
  }

  /**
   * With an existing index and -i, the command inserts after that index;
   * in the middle of a dense, consistently linked list the result is no
   * longer consistently linked.
   */
  lemma {:induction false} InsertFlagMidListBreaksLinks(tasks: seq<E2ETask>, a: E2EArgs, n: int)
    requires FieldsGiven(a) && !a.delete && !a.complete && !a.uncomplete && a.insert
    requires a.index == Parsed(n) && Dense(tasks) && Linked(tasks) && 1 <= n < |tasks|
    ensures E2ECommand(tasks, a).Ok?
    ensures E2ECommand(tasks, a).value.1 == E2EInserted(n + 1)
    ensures !Linked(E2ECommand(tasks, a).value.0)
  {
    DenseFind(tasks, n);
    assert SelectIndex(tasks, a.index) == Ok((n, false));
    MidInsertBreaksLinks(tasks, n, NewE2EData(E2EInput(a.name, a.input, a.output)));
  }

  /**
   * With -d and no index, or an index that no task has, the command deletes
   * the LAST task of a dense list (the one with the largest index) and
   * reports it.
   */
  lemma {:induction false} DeleteWithoutExistingIndexRemovesLast(tasks: seq<E2ETask>, a: E2EArgs)
    requires FieldsGiven(a) && a.delete && NamesNoTask(tasks, a.index)
    requires Dense(tasks) && |tasks| > 0
    ensures var r := E2ECommand(tasks, a); var pos := FindIndex(tasks, Num(|tasks|));
      && pos >= 0 && r.Ok? && r.value.1 == E2EDeleted(Removed(tasks[pos].data.name, |tasks|))
      && Dense(r.value.0) && (Linked(tasks) ==> Linked(r.value.0))
  {
    var k := |tasks|;
    DenseMax(tasks);
    DenseFind(tasks, k);
    assert SelectIndex(tasks, a.index) == Ok((k, true));
    DeleteE2EKeepsInvariants(tasks, k);
  }
}
