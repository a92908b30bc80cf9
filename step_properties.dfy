/**
 * What the step operations and the `step update` command promise, stated
 * over the functions of StepUpdate (and so, through the store methods'
 * postconditions, over the store).
 */
module StepProperties {
  import opened Types
  import opened OrderedList
  import opened ListInvariants
  import opened TaskStore
  import opened StepUpdate

  /** Replacing a task's steps keeps every E2E lookup where it was. */
  lemma WithStepsKeepsLookup(tasks: seq<E2ETask>, ti: int, steps: seq<Step>, e: int)
    requires 0 <= ti < |tasks|
    ensures FindIndex(WithSteps(tasks, ti, steps), Num(e)) == FindIndex(tasks, Num(e))
  {
    FindSameIndices(WithSteps(tasks, ti, steps), tasks, Num(e));
  }

  // ---------------------------------------------------------------------
  // updateStep
  // ---------------------------------------------------------------------

  /**
   * updateStep fails exactly when the E2E task is missing, the step is
   * missing, or the step needs an AST node and the update brings none.
   */
  lemma UpdateStepOutcome(tasks: seq<E2ETask>, e: int, s: int, u: StepPatch)
    ensures var r := UpdateStepIn(tasks, e, s, u); var ti := FindIndex(tasks, Num(e));
      && (ti == -1 <==> r == Err(E2ENotFound(e)))
      && (ti != -1 ==>
            var steps := tasks[ti].data.steps; var si := FindIndex(steps, Num(s));
            && (si == -1 <==> r == Err(StepNotFound(s, e)))
            && (si != -1 ==>
                  && (r.Err? <==> EffectiveStatus(steps[si].data) == NeedAstNode && u.stepNode.None?)
                  && (r.Err? ==> r.error == IllegalTransition("update", steps[si].data.e2eIndex, steps[si].index))))
  {
  }

  /**
   * A successful updateStep changes one step of one task: its position and
   * its e2eIndex and completion stay, each supplied field replaces the old
   * one and the rest stay, and the status moves only from NEED_AST_NODE to
   * PENDING and only when a stepNode is supplied. Afterwards the step never
   * needs an AST node.
   */
  lemma UpdateStepTouchesOnlyGiven(tasks: seq<E2ETask>, e: int, s: int, u: StepPatch)
    requires UpdateStepIn(tasks, e, s, u).Ok?
    ensures var ts := UpdateStepIn(tasks, e, s, u).value.0; var ti := FindIndex(tasks, Num(e));
      var steps := tasks[ti].data.steps; var si := FindIndex(steps, Num(s));
      var st := steps[si]; var ns := ts[ti].data.steps;
      && |ts| == |tasks| && (forall p :: 0 <= p < |tasks| && p != ti ==> ts[p] == tasks[p])
      && ts[ti] == tasks[ti].(data := tasks[ti].data.(steps := ns))
      && |ns| == |steps| && (forall q :: 0 <= q < |steps| && q != si ==> ns[q] == steps[q])
      && ns[si].index == st.index && ns[si].prev == st.prev && ns[si].next == st.next
      && ns[si].data.e2eIndex == st.data.e2eIndex && ns[si].data.completed == st.data.completed
      && ns[si].data.name == u.name.GetOr(st.data.name)
      && ns[si].data.filePath == u.filePath.GetOr(st.data.filePath)
      && ns[si].data.relatedNodes == u.relatedNodes.GetOr(st.data.relatedNodes)
      && ns[si].data.action == u.action.GetOr(st.data.action)
      && ns[si].data.stepNode == (if u.stepNode.Some? then u.stepNode else st.data.stepNode)
      && ns[si].data.additionalInfo == (if u.additionalInfo.Some? then u.additionalInfo else st.data.additionalInfo)
      && EffectiveStatus(ns[si].data) != NeedAstNode
      && (ns[si].data.status != st.data.status ==>
            u.stepNode.Some? && st.data.status == Some(NeedAstNode) && ns[si].data.status == Some(Pending))
  {
  }

  // ---------------------------------------------------------------------
  // updateStepStatus
  // ---------------------------------------------------------------------

  /**
   * updateStepStatus has no status guard: it succeeds whenever the step
   * exists (even one that needs an AST node), changes only `completed`,
   * leaves the status as it was, and reports the step's name.
   */
  lemma SetStepCompletedOutcome(tasks: seq<E2ETask>, e: int, s: int, c: bool)
    ensures var r := SetStepCompletedIn(tasks, e, s, c); var ti := FindIndex(tasks, Num(e));
      && (ti == -1 <==> r == Err(E2ENotFound(e)))
      && (ti != -1 ==>
            var steps := tasks[ti].data.steps; var si := FindIndex(steps, Num(s));
            && (si == -1 <==> r == Err(StepNotFound(s, e)))
            && (si != -1 ==>
                  var ns := r.value.0[ti].data.steps;
                  && r.Ok? && r.value.1 == steps[si].data.name
                  && |r.value.0| == |tasks|
                  && (forall p :: 0 <= p < |tasks| && p != ti ==> r.value.0[p] == tasks[p])
                  && |ns| == |steps|
                  && (forall q :: 0 <= q < |steps| && q != si ==> ns[q] == steps[q])
                  && ns[si] == steps[si].(data := steps[si].data.(completed := c))
                  && ns[si].data.status == steps[si].data.status))
  {
  }

  /** Setting a step's completion and then setting it back restores the task list. */
  lemma {:induction false} CompletionRoundTrip(tasks: seq<E2ETask>, e: int, s: int, c: bool)
    requires SetStepCompletedIn(tasks, e, s, c).Ok?
    ensures var ti := FindIndex(tasks, Num(e)); var steps := tasks[ti].data.steps;
      var st := steps[FindIndex(steps, Num(s))];
      SetStepCompletedIn(SetStepCompletedIn(tasks, e, s, c).value.0, e, s, st.data.completed)
        == Ok((tasks, st.data.name))
  {
    var ti := FindIndex(tasks, Num(e));
    var steps := tasks[ti].data.steps;
    var si := FindIndex(steps, Num(s));
    var ns := steps[si := steps[si].(data := steps[si].data.(completed := c))];
    var ts := WithSteps(tasks, ti, ns);
    WithStepsKeepsLookup(tasks, ti, ns, e);
    FindSameIndices(ns, steps, Num(s));
    assert ns[si := ns[si].(data := ns[si].data.(completed := steps[si].data.completed))] == steps;
    assert WithSteps(ts, ti, steps) == tasks;
  }

  // ---------------------------------------------------------------------
  // insertStep
  // ---------------------------------------------------------------------

  /**
   * insertStep fails when the E2E task is missing, or when the list is
   * non-empty and has no step with the anchor index. The new step is stored
   * last, indexed one past the anchor (1 in an empty list), not completed,
   * tagged with the E2E index, and needs an AST node exactly when it is a
   * `modify` step without a stepNode; every other step keeps its record and
   * every other task is unchanged.
   */
  lemma InsertStepOutcome(tasks: seq<E2ETask>, e: int, a: int, n: NewStep)
    ensures var r := InsertStepIn(tasks, e, a, n); var ti := FindIndex(tasks, Num(e));
      && (ti == -1 <==> r == Err(E2ENotFound(e)))
      && (ti != -1 ==>
            var steps := tasks[ti].data.steps;
            && (r.Err? <==> |steps| > 0 && FindIndex(steps, Num(a)) == -1)
            && (r.Err? ==> r.error == StepNotFound(a, e)))
      && (r.Ok? ==>
            var steps := tasks[ti].data.steps; var ns := r.value.0[ti].data.steps;
            && |r.value.0| == |tasks|
            && (forall p :: 0 <= p < |tasks| && p != ti ==> r.value.0[p] == tasks[p])
            && |ns| == |steps| + 1
            && (forall p :: 0 <= p < |steps| ==> ns[p].data == steps[p].data)
            && ns[|steps|].index == Num(if |steps| == 0 then 1 else a + 1)
            && ns[|steps|].data.e2eIndex == e
            && ns[|steps|].data.name == n.name && ns[|steps|].data.filePath == n.filePath
            && ns[|steps|].data.action == n.action && ns[|steps|].data.stepNode == n.stepNode
            && ns[|steps|].data.relatedNodes == n.relatedNodes.GetOr([])
            && ns[|steps|].data.additionalInfo == n.additionalInfo
            && !ns[|steps|].data.completed && ns[|steps|].data.status.Some?
            && (EffectiveStatus(ns[|steps|].data) == NeedAstNode <==> n.action == MODIFY && n.stepNode.None?))
  {
  }

  /**
   * In a densely numbered step list, inserting after an existing index (or
   * into an empty list) succeeds, keeps the numbering dense and moves every
   * step above the anchor up by one; inserting after the last step also
   * keeps the prev/next chain consistent.
   */
  lemma {:induction false} InsertStepKeepsInvariants(tasks: seq<E2ETask>, e: int, a: int, n: NewStep)
    requires FindIndex(tasks, Num(e)) != -1
    requires var steps := tasks[FindIndex(tasks, Num(e))].data.steps;
      Dense(steps) && (|steps| == 0 || 1 <= a <= |steps|)
    ensures InsertStepIn(tasks, e, a, n).Ok?
    ensures var ti := FindIndex(tasks, Num(e)); var steps := tasks[ti].data.steps;
      var ns := InsertStepIn(tasks, e, a, n).value.0[ti].data.steps;
      && Dense(ns)
      && (forall p :: 0 <= p < |steps| ==> ns[p].index == Num(Moved(steps[p].index.n, a, 1)))
      && (Linked(steps) && (|steps| == 0 || a == |steps|) ==> Linked(ns))
  {
    var ti := FindIndex(tasks, Num(e));
    var steps := tasks[ti].data.steps;
    var d := NewStepData(e, n);
    InsertKeepsDense(steps, a, d);
    if Linked(steps) && (|steps| == 0 || a == |steps|) {
      TailInsertKeepsLinks(steps, a, d);
    }
  }

  // ---------------------------------------------------------------------
  // deleteStep
  // ---------------------------------------------------------------------

  /**
   * deleteStep fails exactly when the E2E task or the step is missing; it
   * reports the removed step's name and index, and the remaining steps keep
   * their records in their storage order.
   */
  lemma DeleteStepOutcome(tasks: seq<E2ETask>, e: int, t: int)
    ensures var r := DeleteStepIn(tasks, e, t); var ti := FindIndex(tasks, Num(e));
      && (ti == -1 <==> r == Err(E2ENotFound(e)))
      && (ti != -1 ==>
            var steps := tasks[ti].data.steps; var pos := FindIndex(steps, Num(t));
            && (pos == -1 <==> r == Err(StepNotFound(t, e)))
            && (pos != -1 ==>
                  var ns := r.value.0[ti].data.steps;
                  && r.Ok? && r.value.1 == Removed(steps[pos].data.name, t)
                  && |r.value.0| == |tasks|
                  && (forall p :: 0 <= p < |tasks| && p != ti ==> r.value.0[p] == tasks[p])
                  && |ns| == |steps| - 1
                  && (forall q :: 0 <= q < |ns| ==> ns[q].data == steps[Before(q, pos)].data)))
  {
  }

  /**
   * In a densely numbered step list, deleting an existing index succeeds and
   * keeps the numbering dense; deleting the first or the last step of a
   * consistent chain keeps the chain consistent.
   */
  lemma {:induction false} DeleteStepKeepsInvariants(tasks: seq<E2ETask>, e: int, t: int)
    requires FindIndex(tasks, Num(e)) != -1
    requires var steps := tasks[FindIndex(tasks, Num(e))].data.steps;
      Dense(steps) && 1 <= t <= |steps|
    ensures DeleteStepIn(tasks, e, t).Ok?
    ensures var ti := FindIndex(tasks, Num(e)); var steps := tasks[ti].data.steps;
      var ns := DeleteStepIn(tasks, e, t).value.0[ti].data.steps;
      && Dense(ns)
      && (Linked(steps) && (t == 1 || t == |steps|) ==> Linked(ns))
  {
    var ti := FindIndex(tasks, Num(e));
    var steps := tasks[ti].data.steps;
    DeleteKeepsDense(steps, t);
    if Linked(steps) && t == |steps| {
      TailDeleteKeepsLinks(steps);
    } else if Linked(steps) && t == 1 {
      HeadDeleteKeepsLinks(steps);
    }
  }

  /**
   * Appending a step after the last one and then deleting it restores the
   * task list exactly, and delete reports the step that was added.
   */
  lemma {:induction false} InsertThenDeleteStepRestores(tasks: seq<E2ETask>, e: int, n: NewStep)
    requires FindIndex(tasks, Num(e)) != -1
    requires var steps := tasks[FindIndex(tasks, Num(e))].data.steps; Dense(steps) && Linked(steps)
    ensures var ti := FindIndex(tasks, Num(e)); var k := |tasks[ti].data.steps|;
      && InsertStepIn(tasks, e, k, n).Ok?
      && DeleteStepIn(InsertStepIn(tasks, e, k, n).value.0, e, k + 1) == Ok((tasks, Removed(n.name, k + 1)))
  {
    var ti := FindIndex(tasks, Num(e));
    var steps := tasks[ti].data.steps;
    var k := |steps|;
    var d := NewStepData(e, n);
    TailInsertThenDeleteRestores(steps, d);
    var ins := InsertAfter(steps, k, d).value;
    var ts := WithSteps(tasks, ti, ins);
    assert InsertStepIn(tasks, e, k, n) == Ok((ts, ()));
    var item := Item(Num(k + 1), if k == 0 then Start else Num(k), End, d);
    DeleteFromReplaced(tasks, ti, e, ins, k + 1, steps, item);
    ReplaceBack(tasks, ti, ins);
  }

  /** Deleting from a task whose steps were replaced works on the replacement. */
  lemma DeleteFromReplaced(tasks: seq<E2ETask>, ti: int, e: int, ins: seq<Step>, t: int, rest: seq<Step>, item: Step)
    requires 0 <= ti < |tasks| && FindIndex(tasks, Num(e)) == ti
    requires DeleteItem(ins, t) == Some((rest, item)) && item.index == Num(t)
    ensures var ts := WithSteps(tasks, ti, ins);
      DeleteStepIn(ts, e, t) == Ok((WithSteps(ts, ti, rest), Removed(item.data.name, t)))
  {
    WithStepsKeepsLookup(tasks, ti, ins, e);
  }

  /** Putting a task's own steps back undoes a replacement. */
  lemma ReplaceBack(tasks: seq<E2ETask>, ti: int, ins: seq<Step>)
    requires 0 <= ti < |tasks|
    ensures WithSteps(WithSteps(tasks, ti, ins), ti, tasks[ti].data.steps) == tasks
  {
    var r := WithSteps(WithSteps(tasks, ti, ins), ti, tasks[ti].data.steps);
    assert forall p :: 0 <= p < |tasks| ==> r[p] == tasks[p];
  }

  // ---------------------------------------------------------------------
  // batchCreateSteps
  // ---------------------------------------------------------------------

  /**
   * batchCreateSteps checks the file format before looking the task up, and
   * fails only for a bad format or a missing E2E task.
   */
  lemma BatchCreateErrors(tasks: seq<E2ETask>, e: int, batch: Option<seq<BatchStepInput>>)
    ensures var r := BatchCreateStepsIn(tasks, e, batch);
      && (batch.None? ==> r == Err(InvalidBatchFormat))
      && (batch.Some? ==> (FindIndex(tasks, Num(e)) == -1 <==> r.Err?) && (r.Err? ==> r.error == E2ENotFound(e)))
  {
  }

  /**
   * A successful batch reports its size and the names in batch order, and
   * changes nothing but the steps of its own task, where the existing steps
   * keep their indices and records and the batch follows them.
   */
  lemma BatchCreateReport(tasks: seq<E2ETask>, e: int, b: seq<BatchStepInput>)
    requires BatchCreateStepsIn(tasks, e, Some(b)).Ok?
    ensures var r := BatchCreateStepsIn(tasks, e, Some(b)).value; var ti := FindIndex(tasks, Num(e));
      var steps := tasks[ti].data.steps; var ns := r.0[ti].data.steps;
      && r.1.0 == |b| && |r.1.1| == |b|
      && (forall i :: 0 <= i < |b| ==> r.1.1[i] == b[i].name)
      && |r.0| == |tasks|
      && (forall p :: 0 <= p < |tasks| && p != ti ==> r.0[p] == tasks[p])
      && |ns| == |steps| + |b|
      && (forall p :: 0 <= p < |steps| ==> ns[p].index == steps[p].index && ns[p].data == steps[p].data)
  {
  }

  /**
   * The batch's new steps are numbered on from the largest index, tagged
   * with the E2E index, named as in the batch, not completed, and need an
   * AST node exactly when they are `modify` steps without a node.
   */
  lemma {:induction false} BatchCreatedSteps(tasks: seq<E2ETask>, e: int, b: seq<BatchStepInput>)
    requires FindIndex(tasks, Num(e)) != -1
    ensures BatchCreateStepsIn(tasks, e, Some(b)).Ok?
    ensures var ti := FindIndex(tasks, Num(e)); var steps := tasks[ti].data.steps;
      NewBatchSteps(BatchCreateStepsIn(tasks, e, Some(b)).value.0[ti].data.steps, |steps|, MaxIndex(steps), e, b)
  {
    BatchStepsAppended(tasks, e, b);
    var steps := tasks[FindIndex(tasks, Num(e))].data.steps;
    BatchChainFields(steps, e, b);
  }

  /**
   * The steps stored from position k of ns on are the batch b in order,
   * numbered from m + 1, tagged with e, not completed, and needing an AST
   * node exactly when they are `modify` steps without a node.
   */
  predicate NewBatchSteps(ns: seq<Step>, k: int, m: int, e: int, b: seq<BatchStepInput>) {
    && 0 <= k && |ns| == k + |b|
    && forall p :: k <= p < |ns| ==>
         && ns[p].index == Num(m + 1 + p - k)
         && ns[p].data.e2eIndex == e && ns[p].data.name == b[p - k].name
         && !ns[p].data.completed
         && (EffectiveStatus(ns[p].data) == NeedAstNode <==> b[p - k].action == MODIFY && b[p - k].stepNode.None?)
  }

  lemma BatchStepsAppended(tasks: seq<E2ETask>, e: int, b: seq<BatchStepInput>)
    requires FindIndex(tasks, Num(e)) != -1
    ensures BatchCreateStepsIn(tasks, e, Some(b)).Ok?
    ensures var ti := FindIndex(tasks, Num(e)); var steps := tasks[ti].data.steps;
      BatchCreateStepsIn(tasks, e, Some(b)).value.0[ti].data.steps == Append(steps, BatchData(e, b))
  {
  }

  lemma {:induction false} BatchChainFields(steps: seq<Step>, e: int, b: seq<BatchStepInput>)
    ensures NewBatchSteps(Append(steps, BatchData(e, b)), |steps|, MaxIndex(steps), e, b)
  {
    var ds := BatchData(e, b);
    var ns := Append(steps, ds);
    AppendChains(steps, ds);
    forall p | |steps| <= p < |ns|
      ensures ns[p].data.e2eIndex == e && ns[p].data.name == b[p - |steps|].name && !ns[p].data.completed
      ensures EffectiveStatus(ns[p].data) == NeedAstNode <==>
                b[p - |steps|].action == MODIFY && b[p - |steps|].stepNode.None?
    {
      assert ns[p].data == ds[p - |steps|];
      BatchEntryFields(e, b[p - |steps|]);
    }
  }

  lemma BatchEntryFields(e: int, x: BatchStepInput)
    ensures var d := BatchStepData(e, x);
      && d.e2eIndex == e && d.name == x.name && !d.completed
      && (EffectiveStatus(d) == NeedAstNode <==> x.action == MODIFY && x.stepNode.None?)
  {
  }

  /** A non-empty batch keeps a dense, consistently linked step list so. */
  lemma {:induction false} BatchKeepsInvariants(tasks: seq<E2ETask>, e: int, b: seq<BatchStepInput>)
    requires FindIndex(tasks, Num(e)) != -1 && |b| > 0
    requires var steps := tasks[FindIndex(tasks, Num(e))].data.steps; Dense(steps) && Linked(steps)
    ensures BatchCreateStepsIn(tasks, e, Some(b)).Ok?
    ensures var ns := BatchCreateStepsIn(tasks, e, Some(b)).value.0[FindIndex(tasks, Num(e))].data.steps;
      Dense(ns) && Linked(ns)
  {
    var steps := tasks[FindIndex(tasks, Num(e))].data.steps;
    AppendKeepsInvariants(steps, BatchData(e, b));
  }

  // ---------------------------------------------------------------------
  // The `step update` command
  // ---------------------------------------------------------------------

  /** True when the command reaches the update/insert choice for E2E task e and step s. */
  predicate ReachesChoice(a: StepArgs, e: int, s: int) {
    a.e2eIndex == Parsed(e) && a.batch.None? && a.stepIndex == Parsed(s)
    && !a.delete && !a.complete && !a.uncomplete
  }

  /**
   * With name, file_path and a valid action all given and well-formed JSON
   * options, the command always inserts a new step after the largest index,
   * whether or not the named step exists: in a dense, consistently linked
   * list the new step is numbered one past the end, the list stays dense and
   * linked, and no existing step changes its index or record.
   */
  lemma {:induction false} FullArgumentsAppend(tasks: seq<E2ETask>, a: StepArgs, e: int, s: int)
    requires ReachesChoice(a, e, s) && FindIndex(tasks, Num(e)) != -1
    requires !SomeFieldMissing(a) && IsAction(a.action)
    requires !a.relatedNodes.Malformed? && !a.stepNode.Malformed?
    requires var steps := tasks[FindIndex(tasks, Num(e))].data.steps; Dense(steps) && Linked(steps)
    ensures var r := StepCommand(tasks, a); var ti := FindIndex(tasks, Num(e));
      var steps := tasks[ti].data.steps;
      && r.Ok? && r.value.1 == StepInserted
      && var ns := r.value.0[ti].data.steps;
      && Dense(ns) && Linked(ns) && ExtendsByOne(steps, ns)
      && ns[|steps|].index == Num(|steps| + 1) && ns[|steps|].data.name == a.name
  {
    var ti := FindIndex(tasks, Num(e));
    var steps := tasks[ti].data.steps;
    var d := NewStepData(e, ArgsStep(a, ParseJson(a.relatedNodes, "--related-nodes").value,
                                     ParseJson(a.stepNode, "--step-node").value));
    FullArgumentsInsert(tasks, a, e, s);
    TailInsertExtends(steps, d);
  }

  /** Under the same conditions the command is insertStep after the last step. */
  lemma FullArgumentsInsert(tasks: seq<E2ETask>, a: StepArgs, e: int, s: int)
    requires ReachesChoice(a, e, s) && FindIndex(tasks, Num(e)) != -1
    requires !SomeFieldMissing(a) && IsAction(a.action)
    requires !a.relatedNodes.Malformed? && !a.stepNode.Malformed?
    requires Dense(tasks[FindIndex(tasks, Num(e))].data.steps)
    ensures var ti := FindIndex(tasks, Num(e)); var steps := tasks[ti].data.steps;
      var d := NewStepData(e, ArgsStep(a, ParseJson(a.relatedNodes, "--related-nodes").value,
                                       ParseJson(a.stepNode, "--step-node").value));
      InsertAfter(steps, |steps|, d).Some? ==>
        StepCommand(tasks, a) == Ok((WithSteps(tasks, ti, InsertAfter(steps, |steps|, d).value), StepInserted))
  {
    var steps := tasks[FindIndex(tasks, Num(e))].data.steps;
    DenseMax(steps);
    assert StepCommand(tasks, a) == SmartUpdate(tasks, e, s, a);
  }

  /**
   * For a step that does not exist, the command refuses with
   * MissingArguments as soon as any of name, file_path and action is missing.
   */
  lemma MissingStepNeedsAllFields(tasks: seq<E2ETask>, a: StepArgs, e: int, s: int)
    requires ReachesChoice(a, e, s) && FindIndex(tasks, Num(e)) != -1
    requires FindIndex(tasks[FindIndex(tasks, Num(e))].data.steps, Num(s)) == -1
    ensures SomeFieldMissing(a) <==> StepCommand(tasks, a) == Err(MissingArguments)
  {
  }

  /**
   * Updating an existing step with some of name, file_path and action
   * missing never moves a step: every step keeps its index and pointers, and
   * the step's name becomes the given one, or stays when none is given.
   */
  lemma PartialUpdateKeepsPositions(tasks: seq<E2ETask>, a: StepArgs, e: int, s: int)
    requires ReachesChoice(a, e, s) && FindIndex(tasks, Num(e)) != -1
    requires FindIndex(tasks[FindIndex(tasks, Num(e))].data.steps, Num(s)) != -1
    requires SomeFieldMissing(a) && StepCommand(tasks, a).Ok?
    ensures var ti := FindIndex(tasks, Num(e)); var steps := tasks[ti].data.steps;
      var si := FindIndex(steps, Num(s)); var ns := StepCommand(tasks, a).value.0[ti].data.steps;
      && StepCommand(tasks, a).value.1 == StepUpdated
      && |ns| == |steps|
      && (forall q :: 0 <= q < |steps| ==>
            ns[q].index == steps[q].index && ns[q].prev == steps[q].prev && ns[q].next == steps[q].next)
      && ns[si].data.name == (if a.name == "" then steps[si].data.name else a.name)
  {
    var node := ParseJson(a.stepNode, "--step-node");
    var related := ParseJson(a.relatedNodes, "--related-nodes");
    assert StepCommand(tasks, a) == SmartUpdate(tasks, e, s, a);
    assert node.Ok? && related.Ok?;
    var patch := StepPatch(NonEmpty(a.name), NonEmpty(a.filePath), related.value, NonEmpty(a.action),
                           node.value, NonEmpty(a.additionalInfo));
    assert StepCommand(tasks, a) == Ok((UpdateStepIn(tasks, e, s, patch).value.0, StepUpdated));
    UpdateStepTouchesOnlyGiven(tasks, e, s, patch);
  }
}
