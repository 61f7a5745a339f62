/** The step that reads the conditional sample's payload and forwards it as an `int`. */
module CheckValueStep {
  import opened KernelProcessEdge
  import SingleFunctionKernelProcessStep

  const StepTypeName: string := "CheckValueStep"

  /** An event emitted through the step context: its id and its data. */
  datatype EmittedEvent = EmittedEvent(eventId: string, data: Payload)

  /** `data is int intValue ? intValue : 0`. */
  function CheckValue(data: Payload): int32 {
    if data.Int? then data.i else 0
  }

  /** An `int` payload passes unchanged; null and every other type become 0. */
  lemma CheckValueCoerces(v: int32, typeName: string)
    ensures CheckValue(Int(v)) == v
    ensures CheckValue(Null) == 0 && CheckValue(Other(typeName)) == 0
  {
  }

  /** `ExecuteAsync`: the events it emits, console output aside. */
  function Execute(data: Payload): (emitted: seq<EmittedEvent>)
    ensures |emitted| == 1
    ensures emitted[0].eventId == "CheckValueStep_Executed"
    ensures emitted[0].data.Int?
    ensures data.Int? ==> emitted[0].data == data
    ensures !data.Int? ==> emitted[0].data == Int(0)
  {
    [EmittedEvent(SingleFunctionKernelProcessStep.Executed(StepTypeName), Int(CheckValue(data)))]
  }
}
