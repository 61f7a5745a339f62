/** The conditional sample graph: CheckValue branches to Positive when the
    payload is greater than zero and to Negative otherwise; both then end the
    process. */
module ConditionalProcess {
  import opened Wrappers
  import opened KernelProcessEdge
  import opened ProcessVisualizer
  import SingleFunctionKernelProcessStep
  import CheckValueStep

  /** `ProcessEvents.StartProcess`, the input event bound to CheckValue. */
  const StartProcess: string := "StartProcess"

  /** The id of the run's initial event, `SimpleProcess.ProcessEvents.StartProcess`,
      declared as `nameof(StartProcess)`. */
  const InitialEventId: string := "StartProcess"

  /** The run's initial payload, a boxed `int`. */
  const InitialData: Payload := Int(-5)

  /** The function name the library gives a `StopProcess` target. */
  const StopFunctionName: string := "END"

  /** `data => (int)data > 0`; the cast throws on anything but a boxed `int`. */
  function PositiveGuard(data: Payload): Option<bool> {
    if data.Int? then Some(data.i > 0) else None
  }

  /** `data => (int)data <= 0`. */
  function NegativeGuard(data: Payload): Option<bool> {
    if data.Int? then Some(data.i <= 0) else None
  }

  /** On an `int` payload both guards evaluate and exactly one accepts; zero goes negative. */
  lemma GuardsPartition(v: int32)
    ensures PositiveGuard(Int(v)).Some? && NegativeGuard(Int(v)).Some?
    ensures PositiveGuard(Int(v)).value <==> !NegativeGuard(Int(v)).value
    ensures PositiveGuard(Int(v)).value <==> v > 0
    ensures NegativeGuard(Int(0)) == Some(true) && PositiveGuard(Int(0)) == Some(false)
  {
  }

  /** On any other payload, null included, both guards throw. */
  lemma GuardsThrowOnNonInt(data: Payload)
    requires !data.Int?
    ensures PositiveGuard(data).None? && NegativeGuard(data).None?
  {
  }

  /** The ids the built process carries: the library assigns them. */
  datatype Ids = Ids(process: string, checkValue: string, positive: string, negative: string, end: string)

  predicate SampleIdsDistinct(ids: Ids) {
    && ids.checkValue != ids.positive && ids.checkValue != ids.negative && ids.positive != ids.negative
    && ids.end != ids.checkValue && ids.end != ids.positive && ids.end != ids.negative
  }

  predicate NonBlankIds(ids: Ids) {
    !IsBlank(ids.process) && !IsBlank(ids.checkValue) && !IsBlank(ids.positive) && !IsBlank(ids.negative)
  }

  /** An edge as the builder finalises it: the target id is the output target's step id. */
  function Route(sourceStepId: string, target: FunctionTarget, condition: Option<Condition>): Edge {
    Edge(sourceStepId, target.stepId, condition, target)
  }

  function ExecuteTarget(stepId: string, parameterName: Option<string>): FunctionTarget {
    FunctionTarget(stepId, SingleFunctionKernelProcessStep.Execute, parameterName)
  }

  /** `CreateConditionalProcess()` once built: three steps registered in order,
      each step's Executed event wired in call order, and the input event bound
      to CheckValue. */
  function CreateConditionalProcess(ids: Ids): KernelProcess {
    var stop := FunctionTarget(ids.end, StopFunctionName, None);
    var checkValue := StepInfo(ids.checkValue, "CheckValueStep", Some([
      (SingleFunctionKernelProcessStep.Executed("CheckValueStep"), [
        Route(ids.checkValue, ExecuteTarget(ids.positive, None), Some(PositiveGuard)),
        Route(ids.checkValue, ExecuteTarget(ids.negative, None), Some(NegativeGuard))])]));
    var positive := StepInfo(ids.positive, "PositiveStep", Some([
      (SingleFunctionKernelProcessStep.Executed("PositiveStep"), [Route(ids.positive, stop, None)])]));
    var negative := StepInfo(ids.negative, "NegativeStep", Some([
      (SingleFunctionKernelProcessStep.Executed("NegativeStep"), [Route(ids.negative, stop, None)])]));
    KernelProcess(
      [checkValue, positive, negative],
      [(StartProcess, [Route(ids.process, ExecuteTarget(ids.checkValue, Some("data")), None)])])
  }

  /** Three steps, CheckValue, Positive and Negative, and one input binding:
      `StartProcess` to CheckValue. The run starts with that same event. */
  lemma ConditionalProcessShape(ids: Ids)
    ensures var p := CreateConditionalProcess(ids);
      && |p.steps| == 3
      && p.steps[0].name == "CheckValueStep" && p.steps[1].name == "PositiveStep" && p.steps[2].name == "NegativeStep"
      && p.steps[0].id == ids.checkValue && p.steps[1].id == ids.positive && p.steps[2].id == ids.negative
      && |p.edges| == 1 && p.edges[0].0 == StartProcess && p.edges[0].0 == InitialEventId
      && |p.edges[0].1| == 1 && p.edges[0].1[0].targetStepId == ids.checkValue
  {
  }

  /** A step whose only event is its own Executed event, routed once,
      unconditionally, to a target that ends the process. */
  predicate StopsOnExecuted(step: StepInfo) {
    && step.edges.Some?
    && |step.edges.value| == 1
    && step.edges.value[0].0 == SingleFunctionKernelProcessStep.Executed(step.name)
    && |step.edges.value[0].1| == 1
    && IsEndFunction(step.edges.value[0].1[0].outputTarget.functionName)
    && step.edges.value[0].1[0].condition.None?
  }

  /** CheckValue's Executed event has two conditional edges, to Positive then
      to Negative; Positive's and Negative's Executed events end the process. */
  lemma ConditionalProcessBranches(ids: Ids)
    ensures var p := CreateConditionalProcess(ids);
      && p.steps[0].edges == Some([(CheckValueStep.Execute(Null)[0].eventId, p.steps[0].edges.value[0].1)])
      && var branches := p.steps[0].edges.value[0].1;
      && |branches| == 2
      && branches[0].targetStepId == ids.positive && branches[0].condition == Some(PositiveGuard)
      && branches[1].targetStepId == ids.negative && branches[1].condition == Some(NegativeGuard)
      && StopsOnExecuted(p.steps[1]) && StopsOnExecuted(p.steps[2])
  {
    var p := CreateConditionalProcess(ids);
    assert IsEndFunction(StopFunctionName);
    assert p.steps[0].edges.value[0].0 == SingleFunctionKernelProcessStep.Executed("CheckValueStep");
  }

  /** Every edge of the graph is one the edge constructors accept and leave valid. */
  lemma ConditionalEdgesValid(ids: Ids)
    requires NonBlankIds(ids)
    ensures var p := CreateConditionalProcess(ids);
      && (forall k :: 0 <= k < |p.edges[0].1| ==> Valid(p.edges[0].1[k]))
      && forall k :: 0 <= k < |FlatStepEdges(p.steps)| ==> Valid(FlatStepEdges(p.steps)[k].1)
  {
    var p := CreateConditionalProcess(ids);
    FlatConditionalEdges(ids);
  }

  /** The graph's step edges in enumeration order. */
  lemma FlatConditionalEdges(ids: Ids)
    ensures var p := CreateConditionalProcess(ids);
      FlatStepEdges(p.steps) ==
        Sourced("CheckValueStep", p.steps[0].edges.value[0].1) +
        Sourced("PositiveStep", p.steps[1].edges.value[0].1) +
        Sourced("NegativeStep", p.steps[2].edges.value[0].1)
  {
    var p := CreateConditionalProcess(ids);
    var s0, s1, s2 := p.steps[0], p.steps[1], p.steps[2];
    assert p.steps[1..] == [s1, s2] && [s1, s2][1..] == [s2] && [s2][1..] == [];
    assert s0.edges.value[1..] == [] && s1.edges.value[1..] == [] && s2.edges.value[1..] == [];
    forall s | s in [s0, s1, s2]
      ensures GroupEdges(s.name, s.edges.value) == Sourced(s.name, s.edges.value[0].1)
    {
      var own := Sourced(s.name, s.edges.value[0].1);
      assert GroupEdges(s.name, s.edges.value) == own + GroupEdges(s.name, []);
      assert own + [] == own;
    }
    var own2 := Sourced("NegativeStep", s2.edges.value[0].1);
    assert FlatStepEdges([s2]) == own2 + FlatStepEdges([]);
    assert own2 + [] == own2;
    assert FlatStepEdges([s1, s2]) == Sourced("PositiveStep", s1.edges.value[0].1) + FlatStepEdges([s2]);
  }

  /** No step edge leads into CheckValue: it is entered only through the input event. */
  lemma NothingTargetsCheckValue(ids: Ids)
    requires SampleIdsDistinct(ids)
    ensures var p := CreateConditionalProcess(ids);
      forall k :: 0 <= k < |FlatStepEdges(p.steps)| ==> FlatStepEdges(p.steps)[k].1.targetStepId != ids.checkValue
  {
    var p := CreateConditionalProcess(ids);
    FlatConditionalEdges(ids);
  }

  /** Whatever payload CheckValue receives, it emits an `int`, so both branch
      conditions of the graph evaluate without throwing and exactly one accepts;
      a payload that is not an `int` always takes the Negative branch. */
  lemma CheckValueOutputTakesOneBranch(ids: Ids, data: Payload)
    ensures var out := CheckValueStep.Execute(data)[0].data;
      var branches := CreateConditionalProcess(ids).steps[0].edges.value[0].1;
      && branches[0].condition.value(out).Some?
      && branches[1].condition.value(out).Some?
      && (branches[0].condition.value(out).value <==> !branches[1].condition.value(out).value)
      && (!data.Int? ==> branches[1].condition.value(out) == Some(true))
  {
    var out := CheckValueStep.Execute(data)[0].data;
    GuardsPartition(out.i);
  }

  /** The run's initial payload, -5, takes the Negative branch. */
  lemma InitialRunGoesNegative(ids: Ids)
    ensures var out := CheckValueStep.Execute(InitialData)[0].data;
      CreateConditionalProcess(ids).steps[0].edges.value[0].1[1].condition.value(out) == Some(true)
  {
  }

  /** The step-name dictionary of the built sample. */
  function SampleNames(ids: Ids): map<string, string> {
    map[ids.checkValue := "CheckValueStep", ids.positive := "PositiveStep", ids.negative := "NegativeStep"]
  }

  lemma SampleStepNames(ids: Ids)
    requires SampleIdsDistinct(ids)
    ensures StepNames(CreateConditionalProcess(ids).steps) == Success(SampleNames(ids))
  {
    var p := CreateConditionalProcess(ids);
    var s0, s1 := p.steps[0], p.steps[1];
    assert p.steps[..2][..1] == [s0] && p.steps[..2] == [s0, s1] && p.steps[..3] == p.steps;
    assert [s0][..0] == [];
    assert StepNames([s0]) == Success(map[ids.checkValue := "CheckValueStep"]);
  }

  /** The lines of the sample's diagram after the header, in the order they are written:
      `Start[Start] --> CheckValueStep[CheckValueStep]`,
      `CheckValueStep[CheckValueStep] -->|Condition| PositiveStep[PositiveStep]`,
      `CheckValueStep[CheckValueStep] -->|Condition| NegativeStep[NegativeStep]`,
      `PositiveStep[PositiveStep] --> End[End]` and `NegativeStep[NegativeStep] --> End[End]`. */
  const StartLineText: string := "Start[Start] --> " + Node("CheckValueStep")
  const ToPositiveText: string := Node("CheckValueStep") + " -->" + ConditionLabel + " " + Node("PositiveStep")
  const ToNegativeText: string := Node("CheckValueStep") + " -->" + ConditionLabel + " " + Node("NegativeStep")
  const PositiveEndText: string := Node("PositiveStep") + " -->" + "" + " " + EndNode
  const NegativeEndText: string := Node("NegativeStep") + " -->" + "" + " " + EndNode

  /** No step has the input event's key, so the binding is drawn from Start. */
  lemma SampleStartLines(ids: Ids)
    requires SampleIdsDistinct(ids)
    ensures var p := CreateConditionalProcess(ids);
      StartLines(p.edges, p.steps, SampleNames(ids)) == Success([StartLineText])
  {
    var p := CreateConditionalProcess(ids);
    var names := SampleNames(ids);
    var s0, s1, s2 := p.steps[0], p.steps[1], p.steps[2];
    assert AnyStepHasKey(p.steps, StartProcess) == Success(false) by {
      forall s | s in [s0, s1, s2]
        ensures s.edges.Some? && !HasKey(s.edges.value, StartProcess)
      {
        var key := s.edges.value[0].0;
        assert key == s.name + "_Executed";
        assert key[|key| - 1] != StartProcess[|StartProcess| - 1] || |key| != |StartProcess|;
      }
      AnyStepHasKeySpec(p.steps, StartProcess);
    }
    var startEdge := p.edges[0].1[0];
    assert startEdge.targetStepId == ids.checkValue && names[ids.checkValue] == "CheckValueStep";
    assert StartLine(StartProcess, startEdge, p.steps, names) == Success([StartLineText]);
    assert p.edges[0].1[1..] == [] && p.edges[1..] == [];
    assert StartGroupLines(StartProcess, p.edges[0].1, p.steps, names) == Success([StartLineText] + []);
    assert [StartLineText] + [] == [StartLineText];
  }

  /** CheckValue's two labelled branches, then Positive's and Negative's edges into End. */
  lemma SampleStepLines(ids: Ids)
    requires SampleIdsDistinct(ids)
    ensures var p := CreateConditionalProcess(ids);
      StepLines(p.steps, SampleNames(ids)) == Success([ToPositiveText, ToNegativeText, PositiveEndText, NegativeEndText])
  {
    var p := CreateConditionalProcess(ids);
    var names := SampleNames(ids);
    var s0, s1, s2 := p.steps[0], p.steps[1], p.steps[2];
    assert IsEndFunction(StopFunctionName);
    assert !IsEndFunction(SingleFunctionKernelProcessStep.Execute);
    assert StepEdgeLines(s0, names) == Success([ToPositiveText, ToNegativeText]) by {
      var es := s0.edges.value[0].1;
      assert EdgeLine(s0.name, es[0], names) == Success([ToPositiveText]);
      assert EdgeLine(s0.name, es[1], names) == Success([ToNegativeText]);
      assert es[1..][1..] == [] && s0.edges.value[1..] == [];
      assert EdgeLines(s0.name, es[1..], names) == Success([ToNegativeText] + []);
      assert EdgeLines(s0.name, es, names) == Success([ToPositiveText] + ([ToNegativeText] + []));
      assert [ToPositiveText] + ([ToNegativeText] + []) == [ToPositiveText, ToNegativeText];
      assert EventLines(s0.name, s0.edges.value, names) == Success([ToPositiveText, ToNegativeText] + []);
      assert [ToPositiveText, ToNegativeText] + [] == [ToPositiveText, ToNegativeText];
    }
    assert StepEdgeLines(s1, names) == Success([PositiveEndText]) by {
      var es := s1.edges.value[0].1;
      assert EdgeLine(s1.name, es[0], names) == Success([PositiveEndText]);
      assert es[1..] == [] && s1.edges.value[1..] == [];
      assert [PositiveEndText] + [] == [PositiveEndText];
      assert EdgeLines(s1.name, es, names) == Success([PositiveEndText]);
      assert EventLines(s1.name, s1.edges.value, names) == Success([PositiveEndText] + []);
    }
    assert StepEdgeLines(s2, names) == Success([NegativeEndText]) by {
      var es := s2.edges.value[0].1;
      assert EdgeLine(s2.name, es[0], names) == Success([NegativeEndText]);
      assert es[1..] == [] && s2.edges.value[1..] == [];
      assert [NegativeEndText] + [] == [NegativeEndText];
      assert EdgeLines(s2.name, es, names) == Success([NegativeEndText]);
      assert EventLines(s2.name, s2.edges.value, names) == Success([NegativeEndText] + []);
    }
    assert p.steps[1..] == [s1, s2] && [s1, s2][1..] == [s2] && [s2][1..] == [];
    assert StepLines([s2], names) == Success([NegativeEndText] + []);
    assert StepLines([s1, s2], names) == Success([PositiveEndText] + ([NegativeEndText] + []));
    assert [ToPositiveText, ToNegativeText] + ([PositiveEndText] + ([NegativeEndText] + [])) ==
      [ToPositiveText, ToNegativeText, PositiveEndText, NegativeEndText];
  }

  /** The rendered diagram of the sample: the header, the Start line for the
      input binding, two labelled branch lines, and two lines into `End[End]`.
      The end target is not a step; it is drawn without a lookup. */
  lemma RenderedDiagram(ids: Ids)
    requires SampleIdsDistinct(ids)
    ensures Render(CreateConditionalProcess(ids)) ==
      Success(Header + [StartLineText, ToPositiveText, ToNegativeText, PositiveEndText, NegativeEndText])
  {
    SampleStepNames(ids);
    SampleStartLines(ids);
    SampleStepLines(ids);
    assert [StartLineText] + [ToPositiveText, ToNegativeText, PositiveEndText, NegativeEndText] ==
      [StartLineText, ToPositiveText, ToNegativeText, PositiveEndText, NegativeEndText];
  }
}
