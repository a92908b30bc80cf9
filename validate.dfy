/**
 * The `validate` command of spec/src/commands/validate.ts: every real step's
 * AST nodes are looked up in the repository and the outcome is collected
 * into one result per step and a summary.
 *
 * The lookup itself (the `reni` CLI behind AstValidator.validateNode) is the
 * parameter `oracle`, and the JSON parse of a `relatedNodes` entry is the
 * parameter `parse`, which gives None where JSON.parse throws. Validation
 * only reads the task: every operation here takes it as a value.
 */
module Validate {
  import opened Types
  import opened Schedule

  /** What the node oracle answers for one node (NodeValidationResult). */
  datatype NodeCheck = NodeCheck(valid: bool, error: Option<string>)

  /** The two messages a result can carry. */
  datatype Message =
    | MissingStepNode       // 'Missing stepNode'
    | NoSteps(e2eName: string)  // the E2E task has no real step

  /**
   * StepValidationResult. The optional flags `needAstNode` and
   * `stepNodeInvalid` are only ever set to true, so false stands for absent.
   */
  datatype StepResult = StepResult(
    e2eIndex: Option<int>,
    e2eName: Option<string>,
    stepIndex: int,
    stepName: string,
    action: string,
    status: StepStatus,
    valid: bool,
    needAstNode: bool,
    message: Option<Message>,
    stepNodeInvalid: bool,
    stepNodeError: Option<string>,
    relatedNodesResults: Option<seq<NodeCheck>>)

  datatype Summary = Summary(
    totalSteps: int,
    validSteps: int,
    needAstNodeSteps: int,
    invalidSteps: int,
    results: seq<StepResult>)

  const INVALID_NODE_FORMAT: string := "Invalid node format: "

  // ---------------------------------------------------------------------
  // validateStep
  // ---------------------------------------------------------------------

  /** The result record before any check: valid, with the step's own fields. */
  function BaseResult(step: Step): StepResult {
    StepResult(None, None, if step.index.Num? then step.index.n else 0, step.data.name, step.data.action,
               EffectiveStatus(step.data), true, false, None, false, None, None)
  }

  /** The nodes a stepNode names; a single object counts as one node. */
  function StepNodes(sn: StepNode): (nodes: seq<NodeId>)
    ensures sn.SingleNode? ==> nodes == [sn.node]
    ensures sn.NodeList? ==> nodes == sn.nodes
  {
    match sn
    case NodeList(ns) => ns
    case SingleNode(n) => [n]
  }

  /** The oracle's answer for each node, in order. */
  function Checks(oracle: NodeId -> NodeCheck, nodes: seq<NodeId>): (cs: seq<NodeCheck>)
    ensures |cs| == |nodes| && forall k :: 0 <= k < |nodes| ==> cs[k] == oracle(nodes[k])
  {
    seq(|nodes|, k requires 0 <= k < |nodes| => oracle(nodes[k]))
  }

  predicate AnyInvalid(checks: seq<NodeCheck>) {
    exists k :: 0 <= k < |checks| && !checks[k].valid
  }

  /** The stepNode loop: each failing check marks the result and overwrites the error. */
  function NodeVerdict(r: StepResult, checks: seq<NodeCheck>): StepResult {
    if |checks| == 0 then r
    else
      var before := NodeVerdict(r, checks[..|checks| - 1]);
      var last := checks[|checks| - 1];
      if last.valid then before
      else before.(valid := false, stepNodeInvalid := true, stepNodeError := last.error)
  }

  /** One relatedNodes entry: an unparsable string is an invalid entry, else the oracle decides. */
  function RelatedCheck(oracle: NodeId -> NodeCheck, parse: string -> Option<NodeId>, s: string): NodeCheck {
    match parse(s)
    case None => NodeCheck(false, Some(INVALID_NODE_FORMAT + s))
    case Some(n) => oracle(n)
  }

  function RelatedChecks(oracle: NodeId -> NodeCheck, parse: string -> Option<NodeId>, rel: seq<string>): (cs: seq<NodeCheck>)
    ensures |cs| == |rel| && forall k :: 0 <= k < |rel| ==> cs[k] == RelatedCheck(oracle, parse, rel[k])
  {
    seq(|rel|, k requires 0 <= k < |rel| => RelatedCheck(oracle, parse, rel[k]))
  }

  /** True when the stepNode of the step is checked at all. */
  predicate ChecksStepNode(step: Step) {
    step.data.action == MODIFY && step.data.stepNode.Some?
  }

  /** What validateStep returns. */
  function StepValidation(step: Step, oracle: NodeId -> NodeCheck, parse: string -> Option<NodeId>): StepResult {
    var base := BaseResult(step);
    if step.data.status == Some(NeedAstNode) then
      base.(valid := false, needAstNode := true, message := Some(MissingStepNode))
    else
      var afterNodes :=
        if ChecksStepNode(step) then NodeVerdict(base, Checks(oracle, StepNodes(step.data.stepNode.value))) else base;
      var rel := step.data.relatedNodes;
      if |rel| > 0 then
        var checks := RelatedChecks(oracle, parse, rel);
        afterNodes.(relatedNodesResults := Some(checks), valid := if AnyInvalid(checks) then false else afterNodes.valid)
      else afterNodes
  }

  method ValidateStep(step: Step, oracle: NodeId -> NodeCheck, parse: string -> Option<NodeId>) returns (r: StepResult)
    ensures r == StepValidation(step, oracle, parse)
  {
    r := BaseResult(step);
    if step.data.status == Some(NeedAstNode) {
      r := r.(valid := false, needAstNode := true, message := Some(MissingStepNode));
      return;
    }
    if step.data.action == MODIFY && step.data.stepNode.Some? {
      var nodes := StepNodes(step.data.stepNode.value);
      ghost var base := r;
      var i := 0;
      while i < |nodes|
        invariant 0 <= i <= |nodes|
        invariant r == NodeVerdict(base, Checks(oracle, nodes[..i]))
      {
        var nodeResult := oracle(nodes[i]);
        if !nodeResult.valid {
          r := r.(valid := false, stepNodeInvalid := true, stepNodeError := nodeResult.error);
        }
        assert Checks(oracle, nodes[..i + 1])[..i] == Checks(oracle, nodes[..i]);
        i := i + 1;
      }
      assert nodes[..i] == nodes;
    }
    var rel := step.data.relatedNodes;
    if |rel| > 0 {
      var checks: seq<NodeCheck> := [];
      var j := 0;
      while j < |rel|
        invariant 0 <= j <= |rel|
        invariant checks == RelatedChecks(oracle, parse, rel[..j])
      {
        checks := checks + [RelatedCheck(oracle, parse, rel[j])];
        j := j + 1;
      }
      assert rel[..j] == rel;
      r := r.(relatedNodesResults := Some(checks));
      if AnyInvalid(checks) {
        r := r.(valid := false);
      }
    }
  }

  /**
   * A NEED_AST_NODE step is invalid with the message 'Missing stepNode', and
   * its result does not depend on the oracle or the parser at all.
   */
  lemma NeedAstNodeShortCircuits(step: Step, oracle: NodeId -> NodeCheck, parse: string -> Option<NodeId>,
                                 oracle': NodeId -> NodeCheck, parse': string -> Option<NodeId>)
    requires step.data.status == Some(NeedAstNode)
    ensures var r := StepValidation(step, oracle, parse);
            && !r.valid && r.needAstNode && r.message == Some(MissingStepNode)
            && !r.stepNodeInvalid && r.relatedNodesResults.None?
            && r == StepValidation(step, oracle', parse')
  {
  }

  /**
   * The stepNode loop marks the result invalid iff some check fails, and
   * leaves the error of the last failing check.
   */
  lemma {:induction false} NodeVerdictMarksFailures(r: StepResult, checks: seq<NodeCheck>)
    ensures var v := NodeVerdict(r, checks);
            && v.valid == (r.valid && !AnyInvalid(checks))
            && v.stepNodeInvalid == (r.stepNodeInvalid || AnyInvalid(checks))
            && (!AnyInvalid(checks) ==> v == r)
            && (AnyInvalid(checks) ==> exists k :: 0 <= k < |checks| && !checks[k].valid && v.stepNodeError == checks[k].error &&
                                                 forall k' :: k < k' < |checks| ==> checks[k'].valid)
            && v == r.(valid := v.valid, stepNodeInvalid := v.stepNodeInvalid, stepNodeError := v.stepNodeError)
  {
    if |checks| > 0 {
      var init := checks[..|checks| - 1];
      NodeVerdictMarksFailures(r, init);
      assert forall k :: 0 <= k < |init| ==> init[k] == checks[k];
      var last := |checks| - 1;
      if checks[last].valid {
        assert AnyInvalid(checks) == AnyInvalid(init);
      } else {
        assert AnyInvalid(checks);
      }
    }
  }

  /**
   * The verdict on a step without NEED_AST_NODE: the stepNode part fails iff
   * a modify step with a stepNode has a failing node; relatedNodesResults is
   * present iff the step has related nodes, with one entry per node (an
   * unparsable one being an invalid 'Invalid node format' entry); the step is
   * valid iff neither part fails.
   */
  lemma StepVerdict(step: Step, oracle: NodeId -> NodeCheck, parse: string -> Option<NodeId>)
    requires step.data.status != Some(NeedAstNode)
    ensures var r := StepValidation(step, oracle, parse);
            var rel := step.data.relatedNodes;
            var nodesFail := ChecksStepNode(step) && AnyInvalid(Checks(oracle, StepNodes(step.data.stepNode.value)));
            && r.stepNodeInvalid == nodesFail
            && !r.needAstNode && r.message.None?
            && (r.relatedNodesResults.None? <==> |rel| == 0)
            && (r.relatedNodesResults.Some? ==>
                  |r.relatedNodesResults.value| == |rel| &&
                  forall k :: 0 <= k < |rel| ==> r.relatedNodesResults.value[k] == RelatedCheck(oracle, parse, rel[k]))
            && (r.valid <==> !nodesFail && !AnyInvalid(RelatedChecks(oracle, parse, rel)))
  {
    if ChecksStepNode(step) {
      NodeVerdictMarksFailures(BaseResult(step), Checks(oracle, StepNodes(step.data.stepNode.value)));
    }
  }

  /** An unparsable related node is reported, with its text, as invalid. */
  lemma UnparsableRelatedNodeInvalid(oracle: NodeId -> NodeCheck, parse: string -> Option<NodeId>, s: string)
    requires parse(s).None?
    ensures !RelatedCheck(oracle, parse, s).valid
    ensures RelatedCheck(oracle, parse, s).error == Some(INVALID_NODE_FORMAT + s)
  {
  }

  // ---------------------------------------------------------------------
  // validateAllSteps
  // ---------------------------------------------------------------------

  /** The single result of a real E2E task that has no real step. */
  function EmptyTaskResult(t: E2ETask): StepResult {
    StepResult(Some(if t.index.Num? then t.index.n else 0), Some(t.data.name), 0, "", "", Pending, false, false,
               Some(NoSteps(t.data.name)), false, None, None)
  }

  /** The results of the real steps of one E2E task, tagged with its index. */
  function StepResults(e: int, steps: seq<Step>, oracle: NodeId -> NodeCheck, parse: string -> Option<NodeId>): seq<StepResult> {
    if |steps| == 0 then []
    else
      var before := StepResults(e, steps[..|steps| - 1], oracle, parse);
      var s := steps[|steps| - 1];
      if IsSentinel(s.index) then before
      else before + [StepValidation(s, oracle, parse).(e2eIndex := Some(e))]
  }

  /** The NEED_AST_NODE steps among the real steps. */
  function NeedSteps(steps: seq<Step>): nat {
    if |steps| == 0 then 0
    else
      var s := steps[|steps| - 1];
      NeedSteps(steps[..|steps| - 1]) + if !IsSentinel(s.index) && s.data.status == Some(NeedAstNode) then 1 else 0
  }

  /** What one real E2E task adds to the results. */
  function TaskResults(t: E2ETask, oracle: NodeId -> NodeCheck, parse: string -> Option<NodeId>): seq<StepResult> {
    if NoReal(t.data.steps) then [EmptyTaskResult(t)]
    else StepResults(if t.index.Num? then t.index.n else 0, t.data.steps, oracle, parse)
  }

  /** The result list of validateAllSteps. */
  function AllResults(tasks: seq<E2ETask>, oracle: NodeId -> NodeCheck, parse: string -> Option<NodeId>): seq<StepResult> {
    if |tasks| == 0 then []
    else
      var before := AllResults(tasks[..|tasks| - 1], oracle, parse);
      var t := tasks[|tasks| - 1];
      if IsSentinel(t.index) then before else before + TaskResults(t, oracle, parse)
  }

  /** The NEED_AST_NODE counter of validateAllSteps. */
  function NeedCount(tasks: seq<E2ETask>): nat {
    if |tasks| == 0 then 0
    else
      var t := tasks[|tasks| - 1];
      NeedCount(tasks[..|tasks| - 1]) + if IsSentinel(t.index) then 0 else NeedSteps(t.data.steps)
  }

  function CountInvalid(rs: seq<StepResult>): nat {
    if |rs| == 0 then 0 else CountInvalid(rs[..|rs| - 1]) + if rs[|rs| - 1].valid then 0 else 1
  }

  function CountNeedFlags(rs: seq<StepResult>): nat {
    if |rs| == 0 then 0 else CountNeedFlags(rs[..|rs| - 1]) + if rs[|rs| - 1].needAstNode then 1 else 0
  }

  /** The summary of validateAllSteps, with its valid = total - invalid - needAstNode rule. */
  function Summarize(rs: seq<StepResult>, needCount: int): Summary {
    Summary(|rs|, |rs| - CountInvalid(rs) - needCount, needCount, CountInvalid(rs), rs)
  }

  /** The inner loop of validateAllSteps over the steps of one real E2E task. */
  method ValidateTaskSteps(e: int, steps: seq<Step>, oracle: NodeId -> NodeCheck, parse: string -> Option<NodeId>)
    returns (results: seq<StepResult>, needAstNodeCount: nat)
    ensures results == StepResults(e, steps, oracle, parse)
    ensures needAstNodeCount == NeedSteps(steps)
  {
    results := [];
    needAstNodeCount := 0;
    var j := 0;
    while j < |steps|
      invariant 0 <= j <= |steps|
      invariant results == StepResults(e, steps[..j], oracle, parse)
      invariant needAstNodeCount == NeedSteps(steps[..j])
    {
      var step := steps[j];
      assert steps[..j + 1][..j] == steps[..j];
      if IsSentinel(step.index) {
        j := j + 1;
        continue;
      }
      var result := ValidateStep(step, oracle, parse);
      result := result.(e2eIndex := Some(e));
      results := results + [result];
      if step.data.status == Some(NeedAstNode) {
        needAstNodeCount := needAstNodeCount + 1;
      }
      j := j + 1;
    }
    assert steps[..j] == steps;
  }

  method ValidateAllSteps(task: CodeTask, oracle: NodeId -> NodeCheck, parse: string -> Option<NodeId>) returns (summary: Summary)
    ensures summary == Summarize(AllResults(task.e2eTasks, oracle, parse), NeedCount(task.e2eTasks))
  {
    var tasks := task.e2eTasks;
    var allResults: seq<StepResult> := [];
    var needAstNodeCount := 0;
    var i := 0;
    while i < |tasks|
      invariant 0 <= i <= |tasks|
      invariant allResults == AllResults(tasks[..i], oracle, parse)
      invariant needAstNodeCount == NeedCount(tasks[..i])
    {
      var e2eTask := tasks[i];
      assert tasks[..i + 1][..i] == tasks[..i];
      if IsSentinel(e2eTask.index) {
        i := i + 1;
        continue;
      }
      var realSteps := RealItems(e2eTask.data.steps);
      RealStepsCompleted(e2eTask.data.steps);
      if |realSteps| == 0 {
        NoRealNoNeed(e2eTask.data.steps);
        allResults := allResults + [EmptyTaskResult(e2eTask)];
        i := i + 1;
        continue;
      }
      var e := if e2eTask.index.Num? then e2eTask.index.n else 0;
      var stepResults, needInTask := ValidateTaskSteps(e, e2eTask.data.steps, oracle, parse);
      allResults := allResults + stepResults;
      needAstNodeCount := needAstNodeCount + needInTask;
      i := i + 1;
    }
    assert tasks[..i] == tasks;
    var invalidSteps := CountInvalid(allResults);
    summary := Summary(|allResults|, |allResults| - invalidSteps - needAstNodeCount, needAstNodeCount, invalidSteps, allResults);
  }

  // ---------------------------------------------------------------------
  // Properties of the results and the summary
  // ---------------------------------------------------------------------

  /** Sentinel steps contribute nothing: the results are those of the real steps alone. */
  lemma {:induction false} SentinelStepsSkipped(e: int, steps: seq<Step>, oracle: NodeId -> NodeCheck, parse: string -> Option<NodeId>)
    ensures StepResults(e, steps, oracle, parse) == StepResults(e, RealItems(steps), oracle, parse)
  {
    if |steps| > 0 {
      var rest := steps[1..];
      SentinelStepsSkipped(e, rest, oracle, parse);
      StepResultsFront(e, steps, oracle, parse);
      if !IsSentinel(steps[0].index) {
        var full := [steps[0]] + RealItems(rest);
        assert RealItems(steps) == full;
        StepResultsFront(e, full, oracle, parse);
        assert full[1..] == RealItems(rest);
      }
    }
  }

  /** StepResults read from the front: the first step's result comes first. */
  lemma {:induction false} StepResultsFront(e: int, steps: seq<Step>, oracle: NodeId -> NodeCheck, parse: string -> Option<NodeId>)
    requires |steps| > 0
    ensures StepResults(e, steps, oracle, parse) ==
              (if IsSentinel(steps[0].index) then [] else [StepValidation(steps[0], oracle, parse).(e2eIndex := Some(e))]) +
              StepResults(e, steps[1..], oracle, parse)
    decreases |steps|
  {
    if |steps| > 1 {
      var init := steps[..|steps| - 1];
      StepResultsFront(e, init, oracle, parse);
      assert init[0] == steps[0];
      assert init[1..] == steps[1..][..|steps[1..]| - 1];
    } else {
      assert steps[..0] == [];
      assert steps[1..] == [];
    }
  }

  /** Sentinel E2E tasks contribute nothing. */
  lemma {:induction false} SentinelTasksSkipped(tasks: seq<E2ETask>, oracle: NodeId -> NodeCheck, parse: string -> Option<NodeId>)
    ensures AllResults(tasks, oracle, parse) == AllResults(RealItems(tasks), oracle, parse)
  {
    if |tasks| > 0 {
      var rest := tasks[1..];
      SentinelTasksSkipped(rest, oracle, parse);
      AllResultsFront(tasks, oracle, parse);
      if !IsSentinel(tasks[0].index) {
        var full := [tasks[0]] + RealItems(rest);
        assert RealItems(tasks) == full;
        AllResultsFront(full, oracle, parse);
        assert full[1..] == RealItems(rest);
      }
    }
  }

  /** AllResults read from the front. */
  lemma {:induction false} AllResultsFront(tasks: seq<E2ETask>, oracle: NodeId -> NodeCheck, parse: string -> Option<NodeId>)
    requires |tasks| > 0
    ensures AllResults(tasks, oracle, parse) ==
              (if IsSentinel(tasks[0].index) then [] else TaskResults(tasks[0], oracle, parse)) +
              AllResults(tasks[1..], oracle, parse)
    decreases |tasks|
  {
    if |tasks| > 1 {
      var init := tasks[..|tasks| - 1];
      AllResultsFront(init, oracle, parse);
      assert init[0] == tasks[0];
      assert init[1..] == tasks[1..][..|tasks[1..]| - 1];
    } else {
      assert tasks[..0] == [];
      assert tasks[1..] == [];
    }
  }

  /**
   * Every NEED_AST_NODE result is invalid, and the counter equals the number
   * of results flagged needAstNode.
   */
  lemma {:induction false} NeedStepsFlagged(e: int, steps: seq<Step>, oracle: NodeId -> NodeCheck, parse: string -> Option<NodeId>)
    ensures NeedSteps(steps) == CountNeedFlags(StepResults(e, steps, oracle, parse))
    ensures CountNeedFlags(StepResults(e, steps, oracle, parse)) <= CountInvalid(StepResults(e, steps, oracle, parse))
  {
    if |steps| > 0 {
      var init := steps[..|steps| - 1];
      NeedStepsFlagged(e, init, oracle, parse);
      var s := steps[|steps| - 1];
      var before := StepResults(e, init, oracle, parse);
      if !IsSentinel(s.index) {
        var r := StepValidation(s, oracle, parse).(e2eIndex := Some(e));
        CountsAppend(before, r);
        if s.data.status != Some(NeedAstNode) {
          StepVerdict(s, oracle, parse);
        }
      }
    }
  }

  /** How the two counters grow when one result is appended. */
  lemma CountsAppend(rs: seq<StepResult>, r: StepResult)
    ensures CountInvalid(rs + [r]) == CountInvalid(rs) + if r.valid then 0 else 1
    ensures CountNeedFlags(rs + [r]) == CountNeedFlags(rs) + if r.needAstNode then 1 else 0
  {
    assert (rs + [r])[..|rs|] == rs;
  }

  /** Both counters add up over concatenation. */
  lemma {:induction false} CountsConcat(a: seq<StepResult>, b: seq<StepResult>)
    ensures CountInvalid(a + b) == CountInvalid(a) + CountInvalid(b)
    ensures CountNeedFlags(a + b) == CountNeedFlags(a) + CountNeedFlags(b)
    decreases |b|
  {
    if |b| > 0 {
      var init := b[..|b| - 1];
      CountsConcat(a, init);
      assert (a + b)[..|a + b| - 1] == a + init;
    } else {
      assert a + b == a;
    }
  }

  /** Over the whole task: the counter equals the flagged results, all of them invalid. */
  lemma {:induction false} NeedCountFlagged(tasks: seq<E2ETask>, oracle: NodeId -> NodeCheck, parse: string -> Option<NodeId>)
    ensures NeedCount(tasks) == CountNeedFlags(AllResults(tasks, oracle, parse))
    ensures NeedCount(tasks) <= CountInvalid(AllResults(tasks, oracle, parse))
  {
    if |tasks| > 0 {
      var init := tasks[..|tasks| - 1];
      NeedCountFlagged(init, oracle, parse);
      var t := tasks[|tasks| - 1];
      if !IsSentinel(t.index) {
        var before := AllResults(init, oracle, parse);
        var tr := TaskResults(t, oracle, parse);
        CountsConcat(before, tr);
        if NoReal(t.data.steps) {
          NoRealNoNeed(t.data.steps);
          assert CountInvalid(tr) == 1 && CountNeedFlags(tr) == 0 by {
            assert tr[..0] == [];
          }
        } else {
          NeedStepsFlagged(if t.index.Num? then t.index.n else 0, t.data.steps, oracle, parse);
        }
      }
    }
  }

  /** A list of sentinels holds no NEED_AST_NODE step. */
  lemma {:induction false} NoRealNoNeed(steps: seq<Step>)
    requires NoReal(steps)
    ensures NeedSteps(steps) == 0
  {
    if |steps| > 0 {
      NoRealNoNeed(steps[..|steps| - 1]);
    }
  }

  /**
   * The summary subtracts each NEED_AST_NODE step twice: once among the
   * invalid results and once more through the counter.
   */
  lemma ValidStepsSubtractsNeedTwice(tasks: seq<E2ETask>, oracle: NodeId -> NodeCheck, parse: string -> Option<NodeId>)
    ensures var rs := AllResults(tasks, oracle, parse);
            var s := Summarize(rs, NeedCount(tasks));
            && s.totalSteps == |rs| && s.invalidSteps == CountInvalid(rs)
            && s.needAstNodeSteps == CountNeedFlags(rs)
            && CountNeedFlags(rs) <= CountInvalid(rs)
            && s.validSteps == (|rs| - CountInvalid(rs)) - CountNeedFlags(rs)
  {
    NeedCountFlagged(tasks, oracle, parse);
  }

  /** One E2E task holding one NEED_AST_NODE step reports -1 valid steps. */
  lemma LoneNeedStepGivesMinusOne(oracle: NodeId -> NodeCheck, parse: string -> Option<NodeId>)
    ensures var step := Item(Num(1), Start, End, StepData(1, "s", "f.go", [], MODIFY, false, Some(NeedAstNode), None, None));
            var task := Item(Num(1), Start, End, E2EData("e", "in", "out", false, [step]));
            Summarize(AllResults([task], oracle, parse), NeedCount([task])).validSteps == -1
  {
    var step := Item(Num(1), Start, End, StepData(1, "s", "f.go", [], MODIFY, false, Some(NeedAstNode), None, None));
    var task := Item(Num(1), Start, End, E2EData("e", "in", "out", false, [step]));
    assert [task][..0] == [] && [step][..0] == [];
    assert !IsSentinel(task.data.steps[0].index);
    assert !NoReal(task.data.steps);
    var r := StepValidation(step, oracle, parse).(e2eIndex := Some(1));
    assert StepResults(1, [step], oracle, parse) == [r];
    assert TaskResults(task, oracle, parse) == [r];
    var rs := AllResults([task], oracle, parse);
    assert rs == AllResults([], oracle, parse) + [r];
    assert rs[..0] == [];
    assert !r.valid && CountInvalid(rs) == 1;
    assert NeedSteps([step]) == 1;
    assert NeedCount([task]) == 1;
  }

  /** A real E2E task without real steps contributes exactly one invalid result. */
  lemma EmptyTaskContributesOne(t: E2ETask, oracle: NodeId -> NodeCheck, parse: string -> Option<NodeId>)
    requires !IsSentinel(t.index) && NoReal(t.data.steps)
    ensures var rs := TaskResults(t, oracle, parse);
            && |rs| == 1 && !rs[0].valid && rs[0].stepIndex == 0 && rs[0].stepName == ""
            && rs[0].e2eIndex == Some(t.index.n) && rs[0].e2eName == Some(t.data.name)
  {
  }
}
