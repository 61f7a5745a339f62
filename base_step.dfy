/** The step base of the getting-started samples: the same naming convention
    as the single-function steps, declared again in its own project. */
module BaseStep {
  import SingleFunctionKernelProcessStep

  /** `Functions.Execute`. */
  const Execute: string := "Execute"

  /** `OutputEvents.Executed` of `BaseStep<TStep>`. */
  function Executed(stepTypeName: string): (eventName: string)
    ensures eventName == SingleFunctionKernelProcessStep.Executed(stepTypeName)
    ensures eventName[..|stepTypeName|] == stepTypeName
    ensures eventName[|stepTypeName|..] == "_Executed"
  {
    stepTypeName + "_Executed"
  }

  /** Distinct step types emit distinct events. */
  lemma ExecutedInjective(a: string, b: string)
    requires Executed(a) == Executed(b)
    ensures a == b
  {
    SingleFunctionKernelProcessStep.ExecutedInjective(a, b);
  }
}
