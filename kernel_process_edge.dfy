/** The process-graph edge: an immutable route from a source step to a
    function target, optionally guarded by a condition on the event payload. */
module KernelProcessEdge {
  import opened Wrappers

  /** The range of a C# `int`. */
  newtype int32 = x: int | -0x8000_0000 <= x < 0x8000_0000

  /** A boxed C# `object` as it travels on an event: null, a boxed `int`, or a
      value of any other runtime type (named by that type). */
  datatype Payload = Null | Int(i: int32) | Other(typeName: string)

  /** A `Func<object, bool>` edge condition. `None` stands for a predicate that
      throws on the payload (an invalid cast, a null dereference). */
  type Condition = Payload -> Option<bool>

  /** A `KernelProcessFunctionTarget`: which function on which step receives the event. */
  datatype FunctionTarget = FunctionTarget(stepId: string, functionName: string, parameterName: Option<string>)

  /** A `KernelProcessEdge`. `condition == None` is an unconditional edge. */
  datatype Edge = Edge(
    sourceStepId: string,
    targetStepId: string,
    condition: Option<Condition>,
    outputTarget: FunctionTarget)

  /** The argument exceptions the constructors throw, with the offending parameter. */
  datatype ArgumentError = ArgumentNull(paramName: string) | ArgumentWhiteSpace(paramName: string)

  /** `char.IsWhiteSpace`: the Unicode space, line and paragraph separators,
      the controls U+0009 to U+000D, and U+0085. */
  predicate IsWhiteSpace(c: char) {
    var n := c as int;
    || 0x09 <= n <= 0x0D
    || n == 0x20 || n == 0x85 || n == 0xA0 || n == 0x1680
    || 0x2000 <= n <= 0x200A
    || n == 0x2028 || n == 0x2029 || n == 0x202F || n == 0x205F || n == 0x3000
  }

  /** A non-null string that `string.IsNullOrWhiteSpace` rejects: empty, or white space only. */
  predicate IsBlank(s: string) {
    forall i :: 0 <= i < |s| ==> IsWhiteSpace(s[i])
  }

  /** What the constructors establish: a usable source id, and a target id that
      is the output target's step id. */
  predicate Valid(e: Edge) {
    && !IsBlank(e.sourceStepId)
    && e.targetStepId == e.outputTarget.stepId
  }

  /** `new KernelProcessEdge(sourceStepId, outputTarget)`. The source id is checked
      first (null, then blank), then the output target (null). */
  function NewEdge(sourceStepId: Option<string>, outputTarget: Option<FunctionTarget>): (r: Result<Edge, ArgumentError>)
    ensures r.Success? <==> sourceStepId.Some? && !IsBlank(sourceStepId.value) && outputTarget.Some?
    ensures r.Success? ==> Valid(r.value)
    ensures r.Success? ==> r.value.sourceStepId == sourceStepId.value && r.value.outputTarget == outputTarget.value
    ensures r.Success? ==> r.value.condition.None?
  {
    if sourceStepId.None? then Failure(ArgumentNull("sourceStepId"))
    else if IsBlank(sourceStepId.value) then Failure(ArgumentWhiteSpace("sourceStepId"))
    else if outputTarget.None? then Failure(ArgumentNull("outputTarget"))
    else Success(Edge(sourceStepId.value, outputTarget.value.stepId, None, outputTarget.value))
  }

  /** `new KernelProcessEdge(sourceStepId, outputTarget, condition)`: the two-argument
      constructor, then the condition is stored. */
  function NewConditionalEdge(
    sourceStepId: Option<string>,
    outputTarget: Option<FunctionTarget>,
    condition: Option<Condition>): (r: Result<Edge, ArgumentError>)
    ensures r.Success? <==> NewEdge(sourceStepId, outputTarget).Success?
    ensures r.Failure? ==> r.error == NewEdge(sourceStepId, outputTarget).error
    ensures r.Success? ==> r.value.condition == condition && Valid(r.value)
    ensures r.Success? ==> r.value.(condition := None) == NewEdge(sourceStepId, outputTarget).value
  {
    var e :- NewEdge(sourceStepId, outputTarget);
    Success(e.(condition := condition))
  }

  /** The construction errors, in the order the checks run. */
  lemma NewEdgeErrors(sourceStepId: Option<string>, outputTarget: Option<FunctionTarget>)
    ensures sourceStepId.None? ==> NewEdge(sourceStepId, outputTarget) == Failure(ArgumentNull("sourceStepId"))
    ensures sourceStepId.Some? && IsBlank(sourceStepId.value) ==>
              NewEdge(sourceStepId, outputTarget) == Failure(ArgumentWhiteSpace("sourceStepId"))
    ensures sourceStepId.Some? && !IsBlank(sourceStepId.value) && outputTarget.None? ==>
              NewEdge(sourceStepId, outputTarget) == Failure(ArgumentNull("outputTarget"))
  {
  }

  /** The empty string and strings of spaces are rejected as source ids. */
  lemma BlankSourceRejected(outputTarget: Option<FunctionTarget>)
    ensures NewEdge(Some(""), outputTarget) == Failure(ArgumentWhiteSpace("sourceStepId"))
    ensures NewEdge(Some(" \t\r\n"), outputTarget) == Failure(ArgumentWhiteSpace("sourceStepId"))
  {
  }

  /** The data-contract form of an edge: the three `[DataMember]` properties. */
  datatype SerializedEdge = SerializedEdge(sourceStepId: string, targetStepId: string, outputTarget: FunctionTarget)

  /** Data-contract serialisation: `Condition` is `[IgnoreDataMember]`. */
  function Serialize(e: Edge): SerializedEdge {
    SerializedEdge(e.sourceStepId, e.targetStepId, e.outputTarget)
  }

  /** Data-contract deserialisation sets the data members and runs no constructor,
      so the condition is left null and nothing is validated. */
  function Deserialize(d: SerializedEdge): Edge {
    Edge(d.sourceStepId, d.targetStepId, None, d.outputTarget)
  }

  /** Serialisation cannot observe the condition. */
  lemma SerializeIgnoresCondition(e: Edge, c: Option<Condition>)
    ensures Serialize(e.(condition := c)) == Serialize(e)
  {
  }

  /** A round trip gives back the edge as an unconditional edge, still valid. */
  lemma SerializeRoundTrip(e: Edge)
    ensures Deserialize(Serialize(e)) == e.(condition := None)
    ensures Valid(e) ==> Valid(Deserialize(Serialize(e)))
  {
  }

  /** Every serialised form is reproduced exactly. */
  lemma DeserializeRoundTrip(d: SerializedEdge)
    ensures Serialize(Deserialize(d)) == d
  {
  }
}
