/**
 * Completion queries and auto-completion (spec/src/utils/schedule.ts).
 *
 * The queries look at the lists in storage order, never in index order, and
 * skip the sentinel positions 'start' and 'end'. The only operation that
 * changes anything is the auto-completion of one E2E task, which may set that
 * task's `completed` flag and never clears it.
 */
module Schedule {
  import opened Types
  import opened OrderedList
  import opened TaskStore
  import opened ListInvariants

  /** A real (non-sentinel) step that is not completed. */
  predicate IsIncomplete(s: Step) {
    !s.data.completed && !IsSentinel(s.index)
  }

  /** The list with its sentinel positions filtered out, order kept. */
  function RealItems<P>(items: seq<Item<P>>): (r: seq<Item<P>>)
    ensures |r| <= |items|
    ensures forall q :: 0 <= q < |r| ==> !IsSentinel(r[q].index)
  {
    if |items| == 0 then []
    else if IsSentinel(items[0].index) then RealItems(items[1..])
    else [items[0]] + RealItems(items[1..])
  }

  /** The real steps that are not completed, order kept. */
  function IncompleteSteps(steps: seq<Step>): (r: seq<Step>)
    ensures forall q :: 0 <= q < |r| ==> IsIncomplete(r[q])
    ensures |r| == 0 <==> forall p :: 0 <= p < |steps| ==> !IsIncomplete(steps[p])
    ensures |r| > 0 ==> exists p :: 0 <= p < |steps| && steps[p] == r[0] && IsIncomplete(steps[p]) &&
                                    forall q :: 0 <= q < p ==> !IsIncomplete(steps[q])
  {
    if |steps| == 0 then []
    else if IsIncomplete(steps[0]) then
      [steps[0]] + IncompleteSteps(steps[1..])
    else
      var rest := IncompleteSteps(steps[1..]);
      assert forall p :: 1 <= p < |steps| ==> steps[p] == steps[1..][p - 1];
      rest
  }

  /** True iff some real step of the list is not completed. */
  predicate HasIncompleteStep(steps: seq<Step>) {
    exists p :: 0 <= p < |steps| && IsIncomplete(steps[p])
  }

  /**
   * findNextIncompleteStep: the first real step that is not completed, in
   * storage order. `currentStepIndex` is accepted and not used.
   */
  function FindNextIncompleteStep(e2eTask: E2ETask, currentStepIndex: int): (r: Option<Step>)
    ensures r.None? <==> !HasIncompleteStep(e2eTask.data.steps)
    ensures r.Some? ==> exists p :: 0 <= p < |e2eTask.data.steps| && e2eTask.data.steps[p] == r.value &&
                                    IsIncomplete(r.value) &&
                                    forall q :: 0 <= q < p ==> !IsIncomplete(e2eTask.data.steps[q])
  {
    var incomplete := IncompleteSteps(e2eTask.data.steps);
    if |incomplete| == 0 then None else Some(incomplete[0])
  }

  /**
   * areAllStepsCompleted: false for a task without real steps, otherwise
   * whether every real step is completed.
   */
  function AreAllStepsCompleted(e2eTask: E2ETask): (b: bool)
    ensures b <==> !NoReal(e2eTask.data.steps) && RealStepsDone(e2eTask.data.steps)
  {
    var steps := RealItems(e2eTask.data.steps);
    RealStepsCompleted(e2eTask.data.steps);
    if |steps| == 0 then false else StepsDone(steps)
  }

  /**
   * isCodeSpecCompleted: false without real E2E tasks, otherwise whether
   * every real E2E task has all its steps completed. The E2E tasks' own
   * `completed` flags are not consulted.
   */
  function IsCodeSpecCompleted(task: CodeTask): (b: bool)
    ensures b <==> !NoReal(task.e2eTasks) && RealTasksDone(task.e2eTasks)
  {
    var e2eTasks := RealItems(task.e2eTasks);
    RealTasksCompleted(task.e2eTasks);
    if |e2eTasks| == 0 then false else TasksDone(e2eTasks)
  }

  /** No real position in the list. */
  predicate NoReal<P>(items: seq<Item<P>>) {
    forall p :: 0 <= p < |items| ==> IsSentinel(items[p].index)
  }

  /** Every real step of the list is completed. */
  predicate RealStepsDone(steps: seq<Step>) {
    forall p :: 0 <= p < |steps| && !IsSentinel(steps[p].index) ==> steps[p].data.completed
  }

  /** Every step of the list is completed. */
  predicate StepsDone(steps: seq<Step>) {
    forall q :: 0 <= q < |steps| ==> steps[q].data.completed
  }

  /** Every real E2E task of the list has all its steps completed. */
  predicate RealTasksDone(tasks: seq<E2ETask>) {
    forall p :: 0 <= p < |tasks| && !IsSentinel(tasks[p].index) ==> AreAllStepsCompleted(tasks[p])
  }

  /** Every E2E task of the list has all its steps completed. */
  predicate TasksDone(tasks: seq<E2ETask>) {
    forall q :: 0 <= q < |tasks| ==> AreAllStepsCompleted(tasks[q])
  }

  /** Filtering out the sentinels keeps exactly the real steps and their flags. */
  lemma {:induction false} RealStepsCompleted(steps: seq<Step>)
    ensures |RealItems(steps)| == 0 <==> NoReal(steps)
    ensures StepsDone(RealItems(steps)) <==> RealStepsDone(steps)
  {
    if |steps| > 0 {
      var t := steps[1..];
      RealStepsCompleted(t);
      assert forall p :: 1 <= p < |steps| ==> steps[p] == t[p - 1];
      assert NoReal(steps) <==> IsSentinel(steps[0].index) && NoReal(t);
      assert RealStepsDone(steps) <==> (IsSentinel(steps[0].index) || steps[0].data.completed) && RealStepsDone(t);
      if !IsSentinel(steps[0].index) {
        assert RealItems(steps) == [steps[0]] + RealItems(t);
        StepsDoneCons(steps[0], RealItems(t));
      }
    }
  }

  lemma StepsDoneCons(x: Step, r: seq<Step>)
    ensures StepsDone([x] + r) <==> x.data.completed && StepsDone(r)
  {
    var full := [x] + r;
    assert full[0] == x;
    if StepsDone(full) {
      forall q | 0 <= q < |r| ensures r[q].data.completed {
        assert full[q + 1] == r[q];
      }
    }
  }

  /** Filtering out the sentinels keeps exactly the real E2E tasks. */
  lemma {:induction false} RealTasksCompleted(tasks: seq<E2ETask>)
    ensures |RealItems(tasks)| == 0 <==> NoReal(tasks)
    ensures TasksDone(RealItems(tasks)) <==> RealTasksDone(tasks)
  {
    if |tasks| > 0 {
      var t := tasks[1..];
      RealTasksCompleted(t);
      assert forall p :: 1 <= p < |tasks| ==> tasks[p] == t[p - 1];
      assert NoReal(tasks) <==> IsSentinel(tasks[0].index) && NoReal(t);
      assert RealTasksDone(tasks) <==> (IsSentinel(tasks[0].index) || AreAllStepsCompleted(tasks[0])) && RealTasksDone(t);
      if !IsSentinel(tasks[0].index) {
        assert RealItems(tasks) == [tasks[0]] + RealItems(t);
        TasksDoneCons(tasks[0], RealItems(t));
      }
    }
  }

  lemma TasksDoneCons(x: E2ETask, r: seq<E2ETask>)
    ensures TasksDone([x] + r) <==> AreAllStepsCompleted(x) && TasksDone(r)
  {
    var full := [x] + r;
    assert full[0] == x;
    if TasksDone(full) {
      forall q | 0 <= q < |r| ensures AreAllStepsCompleted(r[q]) {
        assert full[q + 1] == r[q];
      }
    }
  }

  /** A real E2E task with at least one real incomplete step. */
  predicate HasWork(t: E2ETask) {
    !IsSentinel(t.index) && HasIncompleteStep(t.data.steps)
  }

  /**
   * findNextE2EWithIncompleteSteps: nothing when the current index is not in
   * the list; otherwise the first E2E task stored after it that has work left.
   */
  method FindNextE2EWithIncompleteSteps(task: CodeTask, currentE2EIndex: int) returns (r: Option<E2ETask>)
    ensures FindIndex(task.e2eTasks, Num(currentE2EIndex)) == -1 ==> r.None?
    ensures var c := FindIndex(task.e2eTasks, Num(currentE2EIndex));
            c >= 0 ==> (r.None? <==> forall q :: c < q < |task.e2eTasks| ==> !HasWork(task.e2eTasks[q]))
    ensures var c := FindIndex(task.e2eTasks, Num(currentE2EIndex));
            r.Some? ==> exists q :: c < q < |task.e2eTasks| && task.e2eTasks[q] == r.value && HasWork(r.value) &&
                                    forall q' :: c < q' < q ==> !HasWork(task.e2eTasks[q'])
  {
    var tasks := task.e2eTasks;
    var c := FindIndex(tasks, Num(currentE2EIndex));
    if c == -1 {
      return None;
    }
    var i := c + 1;
    while i < |tasks|
      invariant c + 1 <= i <= |tasks|
      invariant forall q :: c < q < i ==> !HasWork(tasks[q])
    {
      var t := tasks[i];
      if IsSentinel(t.index) {
        i := i + 1;
        continue;
      }
      if HasIncompleteStep(t.data.steps) {
        return Some(t);
      }
      i := i + 1;
    }
    return None;
  }

  // ---------------------------------------------------------------------
  // checkAndAutoCompleteE2E
  // ---------------------------------------------------------------------

  /**
   * What checkAndAutoCompleteE2E does to the E2E list, and whether it
   * completed the task. A task found by a number is never a sentinel, so the
   * sentinel guard of the source never fires and is not repeated here.
   */
  function AutoCompleteIn(tasks: seq<E2ETask>, e2eIndex: int): (seq<E2ETask>, bool) {
    var ti := FindIndex(tasks, Num(e2eIndex));
    if ti == -1 then (tasks, false)
    else if tasks[ti].data.completed then (tasks, false)
    else if AreAllStepsCompleted(tasks[ti]) then
      (tasks[ti := tasks[ti].(data := tasks[ti].data.(completed := true))], true)
    else (tasks, false)
  }

  method CheckAndAutoCompleteE2E(store: Store, e2eIndex: int) returns (flipped: bool)
    modifies store`e2eTasks
    ensures (store.e2eTasks, flipped) == AutoCompleteIn(old(store.e2eTasks), e2eIndex)
  {
    var ti := FindIndex(store.e2eTasks, Num(e2eIndex));
    if ti == -1 {
      return false;
    }
    var e2eTask := store.e2eTasks[ti];
    if e2eTask.data.completed {
      return false;
    }
    if AreAllStepsCompleted(e2eTask) {
      store.e2eTasks := store.e2eTasks[ti := e2eTask.(data := e2eTask.data.(completed := true))];
      return true;
    }
    return false;
  }

  /**
   * The result is true exactly when the task exists, was not completed and
   * has all its steps completed; then only its flag changes, otherwise
   * nothing changes.
   */
  lemma AutoCompleteOutcome(tasks: seq<E2ETask>, e2eIndex: int)
    ensures var (after, flipped) := AutoCompleteIn(tasks, e2eIndex);
            var ti := FindIndex(tasks, Num(e2eIndex));
            && (flipped <==> ti >= 0 && !tasks[ti].data.completed && AreAllStepsCompleted(tasks[ti]))
            && (!flipped ==> after == tasks)
            && (flipped ==> |after| == |tasks| && after[ti].data == tasks[ti].data.(completed := true) &&
                            after[ti].index == tasks[ti].index && after[ti].prev == tasks[ti].prev &&
                            after[ti].next == tasks[ti].next &&
                            forall p :: 0 <= p < |tasks| && p != ti ==> after[p] == tasks[p])
  {
  }

  /** A second call right after a successful one reports false and changes nothing. */
  lemma {:induction false} AutoCompleteIdempotent(tasks: seq<E2ETask>, e2eIndex: int)
    ensures var (after, _) := AutoCompleteIn(tasks, e2eIndex);
            AutoCompleteIn(after, e2eIndex) == (after, false)
  {
    var (after, flipped) := AutoCompleteIn(tasks, e2eIndex);
    if flipped {
      var ti := FindIndex(tasks, Num(e2eIndex));
      assert forall p :: 0 <= p < |tasks| ==> after[p].index == tasks[p].index;
      FindSameIndices(tasks, after, Num(e2eIndex));
      assert after[ti].data.completed;
    }
  }

  /** No E2E task that was completed stops being completed, and no other flag changes. */
  lemma AutoCompleteNeverUncompletes(tasks: seq<E2ETask>, e2eIndex: int)
    ensures var (after, _) := AutoCompleteIn(tasks, e2eIndex);
            && |after| == |tasks|
            && (forall p :: 0 <= p < |tasks| && tasks[p].data.completed ==> after[p].data.completed)
            && (forall p :: 0 <= p < |tasks| && tasks[p].index != Num(e2eIndex) ==> after[p] == tasks[p])
  {
  }

  /** The E2E tasks' `completed` flags do not matter to isCodeSpecCompleted. */
  lemma CodeSpecIgnoresE2EFlags(task: CodeTask, other: CodeTask)
    requires |task.e2eTasks| == |other.e2eTasks|
    requires forall p :: 0 <= p < |task.e2eTasks| ==>
               other.e2eTasks[p].index == task.e2eTasks[p].index && other.e2eTasks[p].data.steps == task.e2eTasks[p].data.steps
    ensures IsCodeSpecCompleted(task) == IsCodeSpecCompleted(other)
  {
    var ra, rb := RealItems(task.e2eTasks), RealItems(other.e2eTasks);
    RealItemsSameSteps(task.e2eTasks, other.e2eTasks);
    forall q | 0 <= q < |ra|
      ensures AreAllStepsCompleted(ra[q]) == AreAllStepsCompleted(rb[q])
    {
      assert RealItems(ra[q].data.steps) == RealItems(rb[q].data.steps);
    }
  }

  /** Two E2E lists with the same indices and steps filter to lists with the same steps. */
  lemma {:induction false} RealItemsSameSteps(a: seq<E2ETask>, b: seq<E2ETask>)
    requires |a| == |b|
    requires forall p :: 0 <= p < |a| ==> b[p].index == a[p].index && b[p].data.steps == a[p].data.steps
    ensures |RealItems(a)| == |RealItems(b)|
    ensures forall q :: 0 <= q < |RealItems(a)| ==> RealItems(a)[q].data.steps == RealItems(b)[q].data.steps
  {
    if |a| > 0 {
      RealItemsSameSteps(a[1..], b[1..]);
    }
  }

  /** Auto-completing every task whose steps are done is what the whole-task query asks for. */
  lemma CodeSpecCompletedAllowsAutoComplete(task: CodeTask, p: int)
    requires IsCodeSpecCompleted(task)
    requires 0 <= p < |task.e2eTasks| && task.e2eTasks[p].index.Num? && !task.e2eTasks[p].data.completed
    requires FindIndex(task.e2eTasks, task.e2eTasks[p].index) == p
    ensures AutoCompleteIn(task.e2eTasks, task.e2eTasks[p].index.n).1
  {
  }
}
