# Process graph edges and the Mermaid renderer, in Dafny

This project models two small parts of the process framework and the sample
that uses them:

- the process-graph edge `KernelProcessEdge`, an immutable route from a source
  step id to a function target, with an optional condition on the event
  payload. Its constructors validate their arguments and derive
  `TargetStepId` from `OutputTarget.StepId`;
- `ProcessVisualizer.ToMermaid`, which projects a built `KernelProcess` into
  the lines of a Mermaid `flowchart LR` diagram.

It also models the pure parts of the conditional sample. These are the two
branch guards, the payload coercion in `CheckValueStep`, and the
`TypeName_Executed` event-naming convention of the step base classes.

Modules, one per source file:

- `KernelProcessEdge` (kernel_process_edge.dfy): payloads, conditions,
  function targets, the edge datatype, its validity predicate, the two
  constructors as functions that can fail, and data-contract serialisation.
- `ProcessVisualizer` (process_visualizer.dfy): the process as data, the
  specification `Render`, and the method `ToMermaid`. The method keeps the
  source's nested loops and string-builder accumulator and is proved equal to
  `Render`. Lemmas cover the name dictionary, the Start heuristic, the
  one-line-per-edge layout and exactly when rendering fails.
- `SingleFunctionKernelProcessStep` and `BaseStep`: the `Execute` function name
  and the `Executed` event name formula.
- `CheckValueStep`: the coercion of the payload to `int` and the one event
  the step emits.
- `ConditionalProcess`: the guards, the built sample graph, and its rendered
  diagram.
- `Wrappers`: `Option` (a C# null) and `Result` (a thrown exception).

How the model represents the source:

- A dictionary is a sequence of (key, value) entries in enumeration order. A
  step's `Edges` is `Option<...>` because the renderer tests it for null.
- The output is a sequence of lines; `AppendLine`'s newline is not modelled.
- An exception is a `Failure`, and the first one thrown wins.
- `StringComparison.InvariantCultureIgnoreCase` against `"end"` is ASCII case
  folding.
- A `Func<object, bool>` condition is a function from payloads to
  `Option<bool>`, where `None` means the predicate throws.
- A C# `object` payload is null, a boxed `int` (a 32-bit `int32`), or a value of
  some other runtime type.

What the code does, as modelled:

- The comments at ProcessVisualizer.cs lines 46 and 56 say that process-level
  edges that have no preceding step are linked to the Start node. The
  test at line 57 does something narrower. It compares the process-level event
  key with the keys of the steps' `Edges` dictionaries, and it never looks at
  whether the target step has incoming edges. The model follows the test.
- The target-name lookup at line 54 runs before that test. So an unknown
  target id fails rendering even when no Start line would be written.
- Line 57 calls `ContainsKey` without the null check that line 72 makes. `Any`
  stops at the first step that has the key. So a step with null `Edges` met
  before such a step makes rendering throw. The model keeps this
  (`NullStepEdges`).
- Rendering throws in three cases:
  - duplicate step ids, from `ToDictionary` at line 38;
  - a target id that is not a step's, at line 54 or line 91;
  - a null `Edges` met before any step that has the key, at line 57.

Inputs the source does not fix are parameters of `CreateConditionalProcess`:

- The step ids the library assigns.
- The id of the process and of its end step.

The library gives a `StopProcess` target the function name `"END"`; the model
takes that constant as given. The run's initial event id,
`SimpleProcess.ProcessEvents.StartProcess`, is declared at
dotnet/samples/ProcessDemoGraphNodesEdges/ProcessSingleActionStep.cs:9 as
`nameof(StartProcess)`, i.e. `"StartProcess"`.

## Model

| member | source | states |
|---|---|---|
| `KernelProcessEdge.NewEdge` | dotnet/src/Experimental/Process.Abstractions/KernelProcessEdge.cs:42-50 | construction succeeds iff the source id is non-null and not blank and the output target is non-null; the result is valid, holds the given source id and output target, has target id equal to `OutputTarget.StepId`, and has no condition |
| `KernelProcessEdge.NewConditionalEdge` | dotnet/src/Experimental/Process.Abstractions/KernelProcessEdge.cs:52-59 | fails exactly when, and with the same error as, the two-argument constructor; otherwise gives that constructor's edge with `Condition` set to the given value |
| `KernelProcessEdge.NewEdgeErrors` | dotnet/src/Experimental/Process.Abstractions/KernelProcessEdge.cs:44-45 | a null source id, then a blank one, then a null output target, each throws its own argument error, checked in that order |
| `KernelProcessEdge.BlankSourceRejected` | dotnet/src/Experimental/Process.Abstractions/KernelProcessEdge.cs:44 | examples of blank source ids that are rejected: the empty string, and a string of a space, a tab, a carriage return and a line feed. The general case is `NewEdgeErrors` |
| `KernelProcessEdge.SerializeIgnoresCondition` | dotnet/src/Experimental/Process.Abstractions/KernelProcessEdge.cs:30-31 | the serialised form does not depend on the condition |
| `KernelProcessEdge.SerializeRoundTrip` | dotnet/src/Experimental/Process.Abstractions/KernelProcessEdge.cs:11-37 | deserialising a serialised edge gives the same edge without its condition, and a valid edge stays valid |
| `KernelProcessEdge.DeserializeRoundTrip` | dotnet/src/Experimental/Process.Abstractions/KernelProcessEdge.cs:18-37 | the three data members `SourceStepId`, `TargetStepId` and `OutputTarget` survive a round trip unchanged |
| `ProcessVisualizer.ToMermaid` | dotnet/src/Experimental/Process.Core/ProcessVisualizer.cs:31-106 | the nested-loop algorithm returns exactly `Render(process)`, lines or exception; so equal processes always give equal output |
| `ProcessVisualizer.BuilderToMermaid` | dotnet/src/Experimental/Process.Core/ProcessVisualizer.cs:20-24 | rendering a builder is rendering the process it builds |
| `ProcessVisualizer.RenderLines` | dotnet/src/Experimental/Process.Core/ProcessVisualizer.cs:33-105 | a rendered diagram is `flowchart LR`, `Start[Start]`, `End[End]`, then exactly one `Start[Start] --> T[T]` line per process-level edge of a key that no step has, ordered by key and edge, then exactly one `N[N] -->L T` line per step edge, ordered by step, event key and edge |
| `ProcessVisualizer.RenderSucceeds` | dotnet/src/Experimental/Process.Core/ProcessVisualizer.cs:38-103 | rendering succeeds iff the step ids are distinct, every process-level edge targets a step and its key's Start scan meets no null `Edges`, and every step edge ends the process or targets a step |
| `ProcessVisualizer.DuplicateIdsFail` | dotnet/src/Experimental/Process.Core/ProcessVisualizer.cs:38-40 | two steps with the same id make rendering fail with a duplicate-key error naming an id that two steps share |
| `ProcessVisualizer.StepNamesSpec` | dotnet/src/Experimental/Process.Core/ProcessVisualizer.cs:38-40 | the name dictionary is built iff the ids are distinct; it then has exactly the step ids as keys and maps each to its step's name |
| `ProcessVisualizer.StepNamesFailure` | dotnet/src/Experimental/Process.Core/ProcessVisualizer.cs:38-40 | a failed dictionary build reports a duplicate key that two steps share |
| `ProcessVisualizer.AnyStepHasKeySpec` | dotnet/src/Experimental/Process.Core/ProcessVisualizer.cs:57 | the Start scan is true iff some step has the key and no step before it has null `Edges`; false iff every step has non-null `Edges` without the key; and throws iff a null `Edges` comes before any step with the key |
| `ProcessVisualizer.StartGroupLinesSpec` | dotnet/src/Experimental/Process.Core/ProcessVisualizer.cs:47-61 | for a process-level key whose targets are all steps: one `Start[Start] --> T[T]` line per edge, T the target step's name, iff no step has the key; no line if one does; the scan's exception otherwise |
| `ProcessVisualizer.StartLinesFlat` | dotnet/src/Experimental/Process.Core/ProcessVisualizer.cs:47-62 | the process-level lines, when produced, are exactly one `Start[Start] --> T[T]` line per edge, T the target step's name, taken from the keys whose Start test is false (every step has `Edges` and none has the key), in key order and then edge order |
| `ProcessVisualizer.StartLookupFirst` | dotnet/src/Experimental/Process.Core/ProcessVisualizer.cs:54-57 | an unknown process-level target id fails rendering even when a step has the key and no line would be written |
| `ProcessVisualizer.StartGroupSucceeds` | dotnet/src/Experimental/Process.Core/ProcessVisualizer.cs:52-61 | one process-level entry renders iff it has no edges, or all its targets are steps and its Start scan succeeds |
| `ProcessVisualizer.StartLinesSucceed` | dotnet/src/Experimental/Process.Core/ProcessVisualizer.cs:47-62 | the process-level lines render iff every entry with edges has all its targets named and a successful Start scan |
| `ProcessVisualizer.StartLinesRenderable` | dotnet/src/Experimental/Process.Core/ProcessVisualizer.cs:47-62 | the same condition stated over step ids instead of the name dictionary |
| `ProcessVisualizer.StepLinesRenderable` | dotnet/src/Experimental/Process.Core/ProcessVisualizer.cs:66-103 | the steps' edge lines render iff every step edge ends the process or targets a step |
| `ProcessVisualizer.StepLinesFlat` | dotnet/src/Experimental/Process.Core/ProcessVisualizer.cs:66-103 | the loops over steps, event keys and edges draw the flattened edge list in that order; steps with null `Edges` contribute nothing |
| `ProcessVisualizer.EventLinesFlat` | dotnet/src/Experimental/Process.Core/ProcessVisualizer.cs:74-101 | a step's event entries are drawn as their edges in key order |
| `ProcessVisualizer.EdgeLinesFlat` | dotnet/src/Experimental/Process.Core/ProcessVisualizer.cs:79-100 | one event's edges are drawn in order |
| `ProcessVisualizer.LinesOfSpec` | dotnet/src/Experimental/Process.Core/ProcessVisualizer.cs:79-100 | a list of edges is drawn iff each is resolvable, and then as exactly one line per edge: `N[N] -->` then `\|Condition\|` iff the edge has a condition, then a space and `End[End]` or the target step's node |
| `ProcessVisualizer.EndEdgeNeedsNoLookup` | dotnet/src/Experimental/Process.Core/ProcessVisualizer.cs:85-88 | an edge whose function name is "end" in any case is drawn to `End[End]` whatever its target id, with no lookup |
| `ProcessVisualizer.UnknownTargetFails` | dotnet/src/Experimental/Process.Core/ProcessVisualizer.cs:89-93 | any other edge whose target id is not a step's fails with that id |
| `ProcessVisualizer.IsEndFunctionSpellings` | dotnet/src/Experimental/Process.Core/ProcessVisualizer.cs:85 | a function name is the end marker iff it is three letters e, n, d in any case |
| `SingleFunctionKernelProcessStep.Executed` | dotnet/samples/ProcessDemoGraphNodesEdges/SK/KernelProcessStepSingleFunction.cs:18 | the event name is the step type name followed by `_Executed` |
| `SingleFunctionKernelProcessStep.StatefulExecuted` | dotnet/samples/ProcessDemoGraphNodesEdges/SK/KernelProcessStepSingleFunction.cs:35 | the stateful variant names the event exactly as the stateless one does |
| `SingleFunctionKernelProcessStep.ExecutedInjective` | dotnet/samples/ProcessDemoGraphNodesEdges/SK/KernelProcessStepSingleFunction.cs:13-35 | distinct step type names give distinct event names |
| `BaseStep.Executed` | dotnet/samples/GettingStartedWithProcesses/Step00/Steps/BaseStep.cs:18 | the event name is the type name followed by `_Executed`, the same name the single-function bases give |
| `BaseStep.ExecutedInjective` | dotnet/samples/GettingStartedWithProcesses/Step00/Steps/BaseStep.cs:13-18 | distinct step type names give distinct event names |
| `CheckValueStep.CheckValueCoerces` | dotnet/samples/ProcessDemoGraphNodesEdges/Conditional/CheckValueStep.cs:14 | an `int` payload passes unchanged; null and any other type become 0 |
| `CheckValueStep.Execute` | dotnet/samples/ProcessDemoGraphNodesEdges/Conditional/CheckValueStep.cs:10-18 | one event is emitted, `CheckValueStep_Executed`, whose data is always an `int`: the input when it is one, 0 otherwise |
| `ConditionalProcess.GuardsPartition` | dotnet/samples/ProcessDemoGraphNodesEdges/Conditional/ConditionalProcess.cs:29-37 | on an `int` payload both guards evaluate and exactly one accepts, Positive iff the value is above 0; 0 goes to Negative |
| `ConditionalProcess.GuardsThrowOnNonInt` | dotnet/samples/ProcessDemoGraphNodesEdges/Conditional/ConditionalProcess.cs:31-36 | on null or a non-`int` payload both guards' casts throw |
| `ConditionalProcess.CheckValueOutputTakesOneBranch` | dotnet/samples/ProcessDemoGraphNodesEdges/Conditional/CheckValueStep.cs:14-17 | whatever CheckValue receives, the graph's two branch conditions evaluate without throwing on what it emits, exactly one accepts, and a non-`int` input takes the Negative branch |
| `ConditionalProcess.InitialRunGoesNegative` | dotnet/samples/ProcessDemoGraphNodesEdges/Conditional/ConditionalProcess.cs:66-70 | the run's initial payload -5 satisfies the Negative branch |
| `ConditionalProcess.ConditionalProcessShape` | dotnet/samples/ProcessDemoGraphNodesEdges/Conditional/ConditionalProcess.cs:12-26 | three steps CheckValue, Positive and Negative, and one input binding `StartProcess` to CheckValue, the same id as the run's initial event |
| `ConditionalProcess.ConditionalProcessBranches` | dotnet/samples/ProcessDemoGraphNodesEdges/Conditional/ConditionalProcess.cs:29-46 | CheckValue's Executed event has two conditional edges, to Positive with the `> 0` guard and then to Negative with the `<= 0` guard; Positive's and Negative's Executed events each have one unconditional edge that ends the process |
| `ConditionalProcess.FlatConditionalEdges` | dotnet/samples/ProcessDemoGraphNodesEdges/Conditional/ConditionalProcess.cs:29-46 | the step edges in enumeration order are CheckValue's two, then Positive's, then Negative's |
| `ConditionalProcess.ConditionalEdgesValid` | dotnet/samples/ProcessDemoGraphNodesEdges/Conditional/ConditionalProcess.cs:24-46 | every edge of the graph satisfies the invariant the edge constructors establish |
| `ConditionalProcess.NothingTargetsCheckValue` | dotnet/samples/ProcessDemoGraphNodesEdges/Conditional/ConditionalProcess.cs:24-46 | no step edge targets CheckValue; it is entered only through the input event |
| `ConditionalProcess.SampleStepNames` | dotnet/samples/ProcessDemoGraphNodesEdges/Conditional/ConditionalProcess.cs:19-21 | the sample's name dictionary maps the three step ids to their type names |
| `ConditionalProcess.SampleStartLines` | dotnet/samples/ProcessDemoGraphNodesEdges/Conditional/ConditionalProcess.cs:24-26 | no step has the `StartProcess` key, so the input binding is drawn as `Start[Start] --> CheckValueStep[CheckValueStep]` |
| `ConditionalProcess.SampleStepLines` | dotnet/samples/ProcessDemoGraphNodesEdges/Conditional/ConditionalProcess.cs:29-46 | the step edges are drawn as two labelled branch lines from CheckValue, then one line each from Positive and Negative into `End[End]` |
| `ConditionalProcess.RenderedDiagram` | dotnet/samples/ProcessDemoGraphNodesEdges/Conditional/ConditionalProcess.cs:15-48 | the sample renders without error, whatever distinct ids the library assigns, to the header followed by those five lines; the end target is not a step and needs no lookup |

## Left out

- The process builder (`ProcessBuilder.Build`, `AddStepFromType`, `OnInputEvent`, `OnEvent`, `When`, `SendEventTo`, `StopProcess`): it lives in a library that is not part of this model. The built sample graph is therefore a function of the ids the library assigns. It uses the Executed event names as step-level keys and `StartProcess` as the process-level key.
- `BuilderToMermaid`: `Build()` is a function parameter, so failures of the build itself are not modelled.
- `ExecuteAsync` and `StartAsync` in the samples: the host runtime that dispatches events and evaluates conditions is not part of this model. The model states the guards' behaviour on payloads and does not route events.
- Console output in `CheckValueStep.ExecuteAsync` and in the sample runner: I/O.
- The other step bodies, the linear sample processes and the helper classes: console writes, async emits and environment bootstrap, with no logic of their own.
- The `init` accessors of `KernelProcessEdge`: an object initializer can overwrite `TargetStepId`. Only the constructor path is modelled; `Valid` is the invariant that path establishes.
- `Verify` and `KernelProcessFunctionTarget` are not part of this model. The argument checks follow `string.IsNullOrWhiteSpace` and a null check; a function target is a plain value.
- Null step ids, null step names, null function names and a null `TargetStepId` are not modelled: these are strings that are always present.
- Culture-specific case folding beyond ASCII, and `AppendLine`'s platform newline.
