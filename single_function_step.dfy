/** The single-function step bases of the graph demo: the names of the one
    function and the one output event every such step exposes. */
module SingleFunctionKernelProcessStep {

  /** `Functions.Execute`, the same in both generic variants. */
  const Execute: string := "Execute"

  const ExecutedSuffix: string := "_Executed"

  /** `OutputEvents.Executed` of `SingleFunctionKernelProcessStep<TStep>`: the
      step type's name, an underscore and the property's own name. */
  function Executed(stepTypeName: string): (eventName: string)
    ensures |eventName| == |stepTypeName| + |ExecutedSuffix|
    ensures eventName[..|stepTypeName|] == stepTypeName
    ensures eventName[|stepTypeName|..] == ExecutedSuffix
  {
    stepTypeName + "_" + "Executed"
  }

  /** `OutputEvents.Executed` of `SingleFunctionKernelProcessStep<TStep, TState>`:
      the same name as the stateless variant's. */
  function StatefulExecuted(stepTypeName: string): (eventName: string)
    ensures eventName == Executed(stepTypeName)
  {
    stepTypeName + "_" + "Executed"
  }

  /** Distinct step types emit distinct events. */
  lemma {:induction false} ExecutedInjective(a: string, b: string)
    requires Executed(a) == Executed(b)
    ensures a == b
  {
    var e := Executed(a);
    assert |a| == |b|;
    calc {
      a;
      e[..|a|];
      Executed(b)[..|b|];
      b;
    }
  }
}
