/** The Mermaid renderer: projects a built process into the lines of a
    `flowchart LR` diagram. `Render` is the specification, `ToMermaid` the
    imperative algorithm proved equal to it. */
module ProcessVisualizer {
  import opened Wrappers
  import opened KernelProcessEdge

  /** One dictionary entry, event key to its edge list; a dictionary is a
      sequence of entries in enumeration order. */
  type EdgeGroup = (string, seq<Edge>)

  /** A step of a built process: `State.Id`, `State.Name` and its `Edges`
      dictionary, which may be null. */
  datatype StepInfo = StepInfo(id: string, name: string, edges: Option<seq<EdgeGroup>>)

  /** A built `KernelProcess`: its steps and its process-level edges. */
  datatype KernelProcess = KernelProcess(steps: seq<StepInfo>, edges: seq<EdgeGroup>)

  /** The exceptions rendering can throw. */
  datatype RenderError =
    | DuplicateStepId(id: string)    // ToDictionary met a key twice
    | StepIdNotFound(id: string)     // the name dictionary has no such key
    | NullStepEdges(stepId: string)  // ContainsKey on a step whose Edges is null

  /** The diagram, one string per appended line, or the exception thrown. */
  type Lines = Result<seq<string>, RenderError>

  const Header: seq<string> := ["flowchart LR", "Start[Start]", "End[End]"]
  const EndNode: string := "End[End]"
  const ConditionLabel: string := "|Condition|"

  /** A Mermaid node whose id and label are both `name`. */
  function Node(name: string): string {
    name + "[" + name + "]"
  }

  /** ASCII case folding, standing for the invariant culture's. */
  function FoldCase(c: char): char {
    if 'A' <= c <= 'Z' then (c as int + 32) as char else c
  }

  predicate EqualsIgnoreCase(a: string, b: string) {
    |a| == |b| && forall i :: 0 <= i < |a| ==> FoldCase(a[i]) == FoldCase(b[i])
  }

  /** The function name that marks an edge into the process end. */
  predicate IsEndFunction(functionName: string) {
    EqualsIgnoreCase(functionName, "end")
  }

  lemma IsEndFunctionSpellings(functionName: string)
    ensures IsEndFunction(functionName) <==>
      && |functionName| == 3
      && functionName[0] in "eE" && functionName[1] in "nN" && functionName[2] in "dD"
  {
  }

  // ---------------------------------------------------------------------------
  // Concatenating partial outputs: the first exception wins.

  function Then(prefix: seq<string>, r: Lines): Lines {
    match r
    case Success(s) => Success(prefix + s)
    case Failure(e) => Failure(e)
  }

  function Cat(r1: Lines, r2: Lines): Lines {
    match r1
    case Failure(e) => Failure(e)
    case Success(s) => Then(s, r2)
  }

  /** Appending the next piece's output to what is already written. */
  lemma ThenCat(written: seq<string>, first: Lines, rest: Lines)
    ensures Then(written, Cat(first, rest)) ==
      match first
      case Failure(e) => Failure(e)
      case Success(s) => Then(written + s, rest)
  {
    match first
    case Failure(_) =>
    case Success(s) =>
      match rest
      case Failure(_) =>
      case Success(t) =>
        assert written + (s + t) == (written + s) + t;
  }

  lemma CatAssoc(a: Lines, b: Lines, c: Lines)
    ensures Cat(Cat(a, b), c) == Cat(a, Cat(b, c))
  {
    match a
    case Failure(_) =>
    case Success(s) =>
      match b
      case Failure(_) =>
      case Success(t) =>
        match c
        case Failure(_) =>
        case Success(u) =>
          assert (s + t) + u == s + (t + u);
  }

  lemma CatEmpty(r: Lines)
    ensures Cat(Success([]), r) == r
  {
    match r
    case Failure(_) =>
    case Success(s) =>
      assert [] + s == s;
  }

  // ---------------------------------------------------------------------------
  // The step-name dictionary (`Steps.ToDictionary(Id, Name)`).

  predicate DistinctIds(steps: seq<StepInfo>) {
    forall i, j :: 0 <= i < j < |steps| ==> steps[i].id != steps[j].id
  }

  /** Adds the steps in order and throws at the first id already present. */
  function StepNames(steps: seq<StepInfo>): Result<map<string, string>, RenderError>
  {
    if steps == [] then Success(map[])
    else
      var names :- StepNames(steps[..|steps| - 1]);
      var last := steps[|steps| - 1];
      if last.id in names then Failure(DuplicateStepId(last.id))
      else Success(names[last.id := last.name])
  }

  /** The dictionary is built exactly when the ids are distinct; it then maps
      every step's id to that step's name and holds no other key. */
  lemma {:induction false} StepNamesSpec(steps: seq<StepInfo>)
    ensures StepNames(steps).Success? <==> DistinctIds(steps)
    ensures StepNames(steps).Success? ==>
      && (forall id :: id in StepNames(steps).value <==> exists i :: 0 <= i < |steps| && steps[i].id == id)
      && (forall i :: 0 <= i < |steps| ==> StepNames(steps).value[steps[i].id] == steps[i].name)
  {
    if steps != [] {
      var init := steps[..|steps| - 1];
      var last := steps[|steps| - 1];
      StepNamesSpec(init);
      assert forall i :: 0 <= i < |init| ==> init[i] == steps[i];
      if StepNames(init).Success? && last.id in StepNames(init).value {
        var i :| 0 <= i < |init| && init[i].id == last.id;
        assert steps[i].id == steps[|steps| - 1].id;
      }
    }
  }

  /** A failure names an id that two steps share. */
  lemma {:induction false} StepNamesFailure(steps: seq<StepInfo>)
    requires StepNames(steps).Failure?
    ensures StepNames(steps).error.DuplicateStepId?
    ensures exists i, j :: 0 <= i < j < |steps| && steps[i].id == StepNames(steps).error.id && steps[j].id == steps[i].id
  {
    var init := steps[..|steps| - 1];
    var last := steps[|steps| - 1];
    assert forall i :: 0 <= i < |init| ==> init[i] == steps[i];
    if StepNames(init).Failure? {
      StepNamesFailure(init);
      var i, j :| 0 <= i < j < |init| && init[i].id == StepNames(init).error.id && init[j].id == init[i].id;
      assert steps[i].id == init[i].id && steps[j].id == init[j].id;
    } else {
      StepNamesSpec(init);
      var i :| 0 <= i < |init| && init[i].id == last.id;
      assert steps[i].id == steps[|steps| - 1].id;
    }
  }

  // ---------------------------------------------------------------------------
  // The Start heuristic (`process.Steps.Any(s => s.Edges.ContainsKey(key))`).

  predicate HasKey(groups: seq<EdgeGroup>, key: string) {
    exists i :: 0 <= i < |groups| && groups[i].0 == key
  }

  /** A step whose non-null Edges dictionary has `key`. */
  predicate StepHasKey(step: StepInfo, key: string) {
    step.edges.Some? && HasKey(step.edges.value, key)
  }

  /** `Any` visits the steps in order, stops at the first that has the key,
      and throws on a step whose Edges is null. */
  function AnyStepHasKey(steps: seq<StepInfo>, key: string): Result<bool, RenderError>
  {
    if steps == [] then Success(false)
    else if steps[0].edges.None? then Failure(NullStepEdges(steps[0].id))
    else if HasKey(steps[0].edges.value, key) then Success(true)
    else AnyStepHasKey(steps[1..], key)
  }

  /** `true` exactly when a step has the key and no step before it has null Edges;
      `false` exactly when every step has Edges without the key; otherwise the
      first null Edges met throws. */
  lemma {:induction false} AnyStepHasKeySpec(steps: seq<StepInfo>, key: string)
    ensures AnyStepHasKey(steps, key) == Success(true) <==>
      exists i :: 0 <= i < |steps| && StepHasKey(steps[i], key) &&
        forall j :: 0 <= j < i ==> steps[j].edges.Some?
    ensures AnyStepHasKey(steps, key) == Success(false) <==>
      forall i :: 0 <= i < |steps| ==> steps[i].edges.Some? && !StepHasKey(steps[i], key)
    ensures AnyStepHasKey(steps, key).Failure? <==>
      exists i :: 0 <= i < |steps| && steps[i].edges.None? &&
        forall j :: 0 <= j < i ==> !StepHasKey(steps[j], key)
  {
    if steps != [] {
      AnyStepHasKeySpec(steps[1..], key);
      assert forall i :: 1 <= i < |steps| ==> steps[1..][i - 1] == steps[i];
      if steps[0].edges.Some? && !HasKey(steps[0].edges.value, key) {
        if AnyStepHasKey(steps, key) == Success(true) {
          var i :| 0 <= i < |steps[1..]| && StepHasKey(steps[1..][i], key) &&
            forall j :: 0 <= j < i ==> steps[1..][j].edges.Some?;
          assert StepHasKey(steps[i + 1], key);
        }
        if AnyStepHasKey(steps, key).Failure? {
          var i :| 0 <= i < |steps[1..]| && steps[1..][i].edges.None? &&
            forall j :: 0 <= j < i ==> !StepHasKey(steps[1..][j], key);
          assert steps[i + 1].edges.None?;
        }
      }
    }
  }

  // ---------------------------------------------------------------------------
  // Lines for the process-level edges.

  /** One process-level edge: the target's name is looked up first, then the
      Start test runs, and a line is written only when no step has the key. */
  function StartLine(key: string, e: Edge, steps: seq<StepInfo>, names: map<string, string>): Lines
  {
    if e.targetStepId !in names then Failure(StepIdNotFound(e.targetStepId))
    else
      var found :- AnyStepHasKey(steps, key);
      if found then Success([]) else Success(["Start[Start] --> " + Node(names[e.targetStepId])])
  }

  function StartGroupLines(key: string, es: seq<Edge>, steps: seq<StepInfo>, names: map<string, string>): Lines
  {
    if es == [] then Success([])
    else Cat(StartLine(key, es[0], steps, names), StartGroupLines(key, es[1..], steps, names))
  }

  function StartLines(groups: seq<EdgeGroup>, steps: seq<StepInfo>, names: map<string, string>): Lines
  {
    if groups == [] then Success([])
    else Cat(StartGroupLines(groups[0].0, groups[0].1, steps, names), StartLines(groups[1..], steps, names))
  }

  predicate TargetsNamed(es: seq<Edge>, names: map<string, string>) {
    forall k :: 0 <= k < |es| ==> es[k].targetStepId in names
  }

  /** One process-level entry: when every target is named, it yields one Start line
      per edge if no step has the key, none if some step has it, and throws if
      the scan meets a null Edges first. */
  lemma {:induction false} StartGroupLinesSpec(key: string, es: seq<Edge>, steps: seq<StepInfo>, names: map<string, string>)
    requires es != [] && TargetsNamed(es, names)
    ensures AnyStepHasKey(steps, key).Failure? ==>
      StartGroupLines(key, es, steps, names) == Failure(AnyStepHasKey(steps, key).error)
    ensures AnyStepHasKey(steps, key) == Success(true) ==> StartGroupLines(key, es, steps, names) == Success([])
    ensures AnyStepHasKey(steps, key) == Success(false) ==>
      && StartGroupLines(key, es, steps, names).Success?
      && |StartGroupLines(key, es, steps, names).value| == |es|
      && forall k :: 0 <= k < |es| ==>
           StartGroupLines(key, es, steps, names).value[k] == "Start[Start] --> " + Node(names[es[k].targetStepId])
  {
    if |es| > 1 {
      StartGroupLinesSpec(key, es[1..], steps, names);
      if AnyStepHasKey(steps, key) == Success(false) {
        var rest := StartGroupLines(key, es[1..], steps, names).value;
        forall k | 1 <= k < |es|
          ensures ([ "Start[Start] --> " + Node(names[es[0].targetStepId]) ] + rest)[k] ==
                  "Start[Start] --> " + Node(names[es[k].targetStepId])
        {
          assert es[1..][k - 1] == es[k];
        }
      }
    }
  }

  /** The name lookup comes first: an unknown target fails even when the key is
      found on a step and no line would be written. */
  lemma StartLookupFirst(key: string, es: seq<Edge>, steps: seq<StepInfo>, names: map<string, string>)
    requires es != [] && es[0].targetStepId !in names
    ensures StartGroupLines(key, es, steps, names) == Failure(StepIdNotFound(es[0].targetStepId))
  {
  }

  /** The process-level lines are produced exactly when every process-level
      target is named and the Start scan succeeds for every key with edges. */
  lemma {:induction false} StartLinesSucceed(groups: seq<EdgeGroup>, steps: seq<StepInfo>, names: map<string, string>)
    ensures StartLines(groups, steps, names).Success? <==>
      forall i :: 0 <= i < |groups| && groups[i].1 != [] ==>
        TargetsNamed(groups[i].1, names) && AnyStepHasKey(steps, groups[i].0).Success?
  {
    if groups != [] {
      StartLinesSucceed(groups[1..], steps, names);
      assert forall i :: 1 <= i < |groups| ==> groups[1..][i - 1] == groups[i];
      var (key, es) := groups[0];
      StartGroupSucceeds(key, es, steps, names);
    }
  }

  lemma {:induction false} StartGroupSucceeds(key: string, es: seq<Edge>, steps: seq<StepInfo>, names: map<string, string>)
    ensures StartGroupLines(key, es, steps, names).Success? <==>
      es == [] || (TargetsNamed(es, names) && AnyStepHasKey(steps, key).Success?)
  {
    if es != [] {
      StartGroupSucceeds(key, es[1..], steps, names);
      assert forall k :: 1 <= k < |es| ==> es[1..][k - 1] == es[k];
    }
  }

  /** Every step has a non-null Edges dictionary and none of them has `key`:
      the case in which the Start test writes its lines. */
  predicate NoStepHasKey(steps: seq<StepInfo>, key: string) {
    forall i :: 0 <= i < |steps| ==> steps[i].edges.Some? && !StepHasKey(steps[i], key)
  }

  /** The process-level edges that get a Start line: those of every key that
      no step has, in key order, then edge order. */
  function FlatStartEdges(groups: seq<EdgeGroup>, steps: seq<StepInfo>): seq<Edge>
  {
    if groups == [] then []
    else (if NoStepHasKey(steps, groups[0].0) then groups[0].1 else []) + FlatStartEdges(groups[1..], steps)
  }

  /** `lines` are the Start lines of `es`, one `Start[Start] --> T[T]` per edge,
      T the name of the edge's target step. */
  predicate StartLinesFor(lines: seq<string>, es: seq<Edge>, names: map<string, string>) {
    && |lines| == |es|
    && forall k :: 0 <= k < |es| ==>
         es[k].targetStepId in names && lines[k] == "Start[Start] --> " + Node(names[es[k].targetStepId])
  }

  lemma StartLinesForAppend(a: seq<string>, ea: seq<Edge>, b: seq<string>, eb: seq<Edge>, names: map<string, string>)
    requires StartLinesFor(a, ea, names) && StartLinesFor(b, eb, names)
    ensures StartLinesFor(a + b, ea + eb, names)
  {
    forall k | |ea| <= k < |ea| + |eb|
      ensures (ea + eb)[k] == eb[k - |ea|] && (a + b)[k] == b[k - |ea|]
    {
    }
  }

  /** Whenever the process-level lines are produced, they are exactly one Start
      line per edge of the keys no step has, in key order, then edge order. */
  lemma {:induction false} StartLinesFlat(groups: seq<EdgeGroup>, steps: seq<StepInfo>, names: map<string, string>)
    requires StartLines(groups, steps, names).Success?
    ensures StartLinesFor(StartLines(groups, steps, names).value, FlatStartEdges(groups, steps), names)
  {
    if groups != [] {
      var key := groups[0].0;
      var es := groups[0].1;
      var g := StartGroupLines(key, es, steps, names);
      var rest := StartLines(groups[1..], steps, names);
      assert g.Success? && rest.Success? && StartLines(groups, steps, names).value == g.value + rest.value;
      StartLinesFlat(groups[1..], steps, names);
      var own := if NoStepHasKey(steps, key) then es else [];
      if es == [] {
        assert g.value == [] && own == [];
      } else {
        StartGroupSucceeds(key, es, steps, names);
        StartGroupLinesSpec(key, es, steps, names);
        AnyStepHasKeySpec(steps, key);
        if !NoStepHasKey(steps, key) {
          assert AnyStepHasKey(steps, key) == Success(true);
        }
      }
      assert StartLinesFor(g.value, own, names);
      StartLinesForAppend(g.value, own, rest.value, FlatStartEdges(groups[1..], steps), names);
    }
  }

  // ---------------------------------------------------------------------------
  // Lines for the steps' own edges.

  /** An edge can be drawn: it ends the process, or its target step is named. */
  predicate Resolvable(e: Edge, names: map<string, string>) {
    IsEndFunction(e.outputTarget.functionName) || e.targetStepId in names
  }

  /** The target node: `End[End]` for an end function, without any lookup;
      otherwise the named target step. */
  function EdgeTarget(e: Edge, names: map<string, string>): Result<string, RenderError>
  {
    if IsEndFunction(e.outputTarget.functionName) then Success(EndNode)
    else if e.targetStepId in names then Success(Node(names[e.targetStepId]))
    else Failure(StepIdNotFound(e.targetStepId))
  }

  function EdgeLine(stepName: string, e: Edge, names: map<string, string>): Lines
  {
    var target :- EdgeTarget(e, names);
    var conditionLabel := if e.condition.Some? then ConditionLabel else "";
    Success([Node(stepName) + " -->" + conditionLabel + " " + target])
  }

  function EdgeLines(stepName: string, es: seq<Edge>, names: map<string, string>): Lines
  {
    if es == [] then Success([])
    else Cat(EdgeLine(stepName, es[0], names), EdgeLines(stepName, es[1..], names))
  }

  function EventLines(stepName: string, groups: seq<EdgeGroup>, names: map<string, string>): Lines
  {
    if groups == [] then Success([])
    else Cat(EdgeLines(stepName, groups[0].1, names), EventLines(stepName, groups[1..], names))
  }

  /** A step with null Edges contributes nothing. */
  function StepEdgeLines(step: StepInfo, names: map<string, string>): Lines
  {
    if step.edges.None? then Success([]) else EventLines(step.name, step.edges.value, names)
  }

  function StepLines(steps: seq<StepInfo>, names: map<string, string>): Lines
  {
    if steps == [] then Success([])
    else Cat(StepEdgeLines(steps[0], names), StepLines(steps[1..], names))
  }

  // ---------------------------------------------------------------------------
  // The steps' edges flattened: one line per edge, in enumeration order.

  /** An edge with the name of the step it leaves. */
  type SourcedEdge = (string, Edge)

  function Sourced(stepName: string, es: seq<Edge>): (r: seq<SourcedEdge>)
    ensures |r| == |es| && forall k :: 0 <= k < |es| ==> r[k] == (stepName, es[k])
  {
    seq(|es|, k requires 0 <= k < |es| => (stepName, es[k]))
  }

  function GroupEdges(stepName: string, groups: seq<EdgeGroup>): seq<SourcedEdge>
  {
    if groups == [] then [] else Sourced(stepName, groups[0].1) + GroupEdges(stepName, groups[1..])
  }

  /** Every step edge, ordered by step, then event key, then edge. */
  function FlatStepEdges(steps: seq<StepInfo>): seq<SourcedEdge>
  {
    if steps == [] then []
    else (if steps[0].edges.None? then [] else GroupEdges(steps[0].name, steps[0].edges.value)) + FlatStepEdges(steps[1..])
  }

  /** The line an edge is drawn as: `N[N] -->L T`, where L is the condition
      label for a conditional edge and T is ` End[End]` or the named target. */
  function ExpectedLine(stepName: string, e: Edge, names: map<string, string>): string
    requires Resolvable(e, names)
  {
    Node(stepName) + " -->" + (if e.condition.Some? then "|Condition|" else "") + " " +
    (if IsEndFunction(e.outputTarget.functionName) then "End[End]" else Node(names[e.targetStepId]))
  }

  function LinesOf(flat: seq<SourcedEdge>, names: map<string, string>): Lines
  {
    if flat == [] then Success([]) else Cat(EdgeLine(flat[0].0, flat[0].1, names), LinesOf(flat[1..], names))
  }

  lemma {:induction false} LinesOfAppend(a: seq<SourcedEdge>, b: seq<SourcedEdge>, names: map<string, string>)
    ensures LinesOf(a + b, names) == Cat(LinesOf(a, names), LinesOf(b, names))
  {
    if a == [] {
      assert a + b == b;
      CatEmpty(LinesOf(b, names));
    } else {
      assert (a + b)[1..] == a[1..] + b;
      LinesOfAppend(a[1..], b, names);
      CatAssoc(EdgeLine(a[0].0, a[0].1, names), LinesOf(a[1..], names), LinesOf(b, names));
    }
  }

  lemma {:induction false} EdgeLinesFlat(stepName: string, es: seq<Edge>, names: map<string, string>)
    ensures EdgeLines(stepName, es, names) == LinesOf(Sourced(stepName, es), names)
  {
    if es != [] {
      EdgeLinesFlat(stepName, es[1..], names);
      assert Sourced(stepName, es)[1..] == Sourced(stepName, es[1..]);
    }
  }

  lemma {:induction false} EventLinesFlat(stepName: string, groups: seq<EdgeGroup>, names: map<string, string>)
    ensures EventLines(stepName, groups, names) == LinesOf(GroupEdges(stepName, groups), names)
  {
    if groups != [] {
      EventLinesFlat(stepName, groups[1..], names);
      EdgeLinesFlat(stepName, groups[0].1, names);
      LinesOfAppend(Sourced(stepName, groups[0].1), GroupEdges(stepName, groups[1..]), names);
    }
  }

  /** The nested loops over steps, event keys and edges draw the flattened edges in order. */
  lemma {:induction false} StepLinesFlat(steps: seq<StepInfo>, names: map<string, string>)
    ensures StepLines(steps, names) == LinesOf(FlatStepEdges(steps), names)
  {
    if steps != [] {
      StepLinesFlat(steps[1..], names);
      var own := if steps[0].edges.None? then [] else GroupEdges(steps[0].name, steps[0].edges.value);
      if steps[0].edges.Some? {
        EventLinesFlat(steps[0].name, steps[0].edges.value, names);
      }
      LinesOfAppend(own, FlatStepEdges(steps[1..]), names);
    }
  }

  /** The flattened edges are drawn exactly when each is resolvable, and then
      as one line each, in order. */
  lemma {:induction false} LinesOfSpec(flat: seq<SourcedEdge>, names: map<string, string>)
    ensures LinesOf(flat, names).Success? <==> forall k :: 0 <= k < |flat| ==> Resolvable(flat[k].1, names)
    ensures LinesOf(flat, names).Success? ==>
      && |LinesOf(flat, names).value| == |flat|
      && forall k :: 0 <= k < |flat| ==> LinesOf(flat, names).value[k] == ExpectedLine(flat[k].0, flat[k].1, names)
  {
    if flat != [] {
      LinesOfSpec(flat[1..], names);
      assert forall k :: 1 <= k < |flat| ==> flat[1..][k - 1] == flat[k];
      if LinesOf(flat, names).Success? {
        var rest := LinesOf(flat[1..], names).value;
        var first := EdgeLine(flat[0].0, flat[0].1, names).value;
        assert LinesOf(flat, names).value == first + rest;
        assert first == [ExpectedLine(flat[0].0, flat[0].1, names)];
      }
    }
  }

  /** An edge into an end function is drawn to `End[End]` without any lookup,
      so its target id need not be a step's. */
  lemma EndEdgeNeedsNoLookup(stepName: string, e: Edge, names: map<string, string>)
    requires IsEndFunction(e.outputTarget.functionName)
    ensures EdgeLine(stepName, e, names) ==
      Success([Node(stepName) + " -->" + (if e.condition.Some? then "|Condition|" else "") + " " + "End[End]"])
  {
  }

  /** Any other edge whose target id has no step fails the rendering. */
  lemma UnknownTargetFails(stepName: string, e: Edge, names: map<string, string>)
    requires !IsEndFunction(e.outputTarget.functionName) && e.targetStepId !in names
    ensures EdgeLine(stepName, e, names) == Failure(StepIdNotFound(e.targetStepId))
  {
  }

  // ---------------------------------------------------------------------------
  // The diagram.

  /** `ToMermaid(KernelProcess)`: the header, the Start/End nodes, the
      process-level lines, then the steps' edge lines. */
  function Render(p: KernelProcess): Lines
  {
    var names :- StepNames(p.steps);
    Then(Header, Cat(StartLines(p.edges, p.steps, names), StepLines(p.steps, names)))
  }

  /** The id of some step of the process. */
  predicate IsStepId(steps: seq<StepInfo>, id: string) {
    exists i :: 0 <= i < |steps| && steps[i].id == id
  }

  /** Two steps sharing an id make rendering fail while the name dictionary is built. */
  lemma DuplicateIdsFail(p: KernelProcess)
    requires !DistinctIds(p.steps)
    ensures Render(p).Failure? && Render(p).error.DuplicateStepId?
    ensures exists i, j :: 0 <= i < j < |p.steps| && p.steps[i].id == Render(p).error.id && p.steps[j].id == p.steps[i].id
  {
    StepNamesSpec(p.steps);
    StepNamesFailure(p.steps);
  }

  /** Every process-level edge targets a step, and its key's Start scan meets no null Edges. */
  predicate StartEdgesRenderable(p: KernelProcess) {
    forall i, k :: 0 <= i < |p.edges| && 0 <= k < |p.edges[i].1| ==>
      IsStepId(p.steps, p.edges[i].1[k].targetStepId) && AnyStepHasKey(p.steps, p.edges[i].0).Success?
  }

  /** Every step edge ends the process or targets a step. */
  predicate StepEdgesRenderable(p: KernelProcess) {
    forall k :: 0 <= k < |FlatStepEdges(p.steps)| ==>
      IsEndFunction(FlatStepEdges(p.steps)[k].1.outputTarget.functionName) ||
      IsStepId(p.steps, FlatStepEdges(p.steps)[k].1.targetStepId)
  }

  lemma StartLinesRenderable(p: KernelProcess, names: map<string, string>)
    requires forall id :: id in names <==> IsStepId(p.steps, id)
    ensures StartLines(p.edges, p.steps, names).Success? <==> StartEdgesRenderable(p)
  {
    StartLinesSucceed(p.edges, p.steps, names);
    if StartEdgesRenderable(p) {
      forall i | 0 <= i < |p.edges| && p.edges[i].1 != []
        ensures TargetsNamed(p.edges[i].1, names) && AnyStepHasKey(p.steps, p.edges[i].0).Success?
      {
        assert IsStepId(p.steps, p.edges[i].1[0].targetStepId);
      }
    }
    if StartLines(p.edges, p.steps, names).Success? {
      forall i, k | 0 <= i < |p.edges| && 0 <= k < |p.edges[i].1|
        ensures IsStepId(p.steps, p.edges[i].1[k].targetStepId) && AnyStepHasKey(p.steps, p.edges[i].0).Success?
      {
        assert TargetsNamed(p.edges[i].1, names);
      }
    }
  }

  lemma StepLinesRenderable(p: KernelProcess, names: map<string, string>)
    requires forall id :: id in names <==> IsStepId(p.steps, id)
    ensures StepLines(p.steps, names).Success? <==> StepEdgesRenderable(p)
  {
    StepLinesFlat(p.steps, names);
    LinesOfSpec(FlatStepEdges(p.steps), names);
  }

  /** Rendering succeeds exactly when the step ids are distinct and every
      process-level and step edge can be drawn. */
  lemma RenderSucceeds(p: KernelProcess)
    ensures Render(p).Success? <==> DistinctIds(p.steps) && StartEdgesRenderable(p) && StepEdgesRenderable(p)
  {
    StepNamesSpec(p.steps);
    if DistinctIds(p.steps) {
      var names := StepNames(p.steps).value;
      StartLinesRenderable(p, names);
      StepLinesRenderable(p, names);
    }
  }

  /** `out` is a diagram laid out as the renderer writes it: the header, then
      one Start line per edge of `es`, then one line per step edge of `flat`. */
  predicate IsDiagram(out: seq<string>, es: seq<Edge>, flat: seq<SourcedEdge>, names: map<string, string>) {
    && |out| == |Header| + |es| + |flat|
    && out[..3] == Header
    && (forall k :: 0 <= k < |es| ==>
          es[k].targetStepId in names && out[3 + k] == "Start[Start] --> " + Node(names[es[k].targetStepId]))
    && forall k :: 0 <= k < |flat| ==>
         Resolvable(flat[k].1, names) && out[3 + |es| + k] == ExpectedLine(flat[k].0, flat[k].1, names)
  }

  /** A rendered diagram is the header, then one Start line per process-level
      edge of a key no step has, then one line per step edge, both in
      enumeration order. */
  lemma RenderLines(p: KernelProcess)
    requires Render(p).Success?
    ensures StepNames(p.steps).Success?
    ensures IsDiagram(Render(p).value, FlatStartEdges(p.edges, p.steps), FlatStepEdges(p.steps), StepNames(p.steps).value)
  {
    RenderParts(p);
    var names := StepNames(p.steps).value;
    StartLinesFlat(p.edges, p.steps, names);
    StepLinesFlat(p.steps, names);
    LinesOfSpec(FlatStepEdges(p.steps), names);
    DiagramLayout(Render(p).value, StartLines(p.edges, p.steps, names).value, StepLines(p.steps, names).value,
      FlatStartEdges(p.edges, p.steps), FlatStepEdges(p.steps), names);
  }

  /** Where each part of `Header + start + rest` lands in the output. */
  lemma DiagramLayout(out: seq<string>, start: seq<string>, rest: seq<string>,
                      es: seq<Edge>, flat: seq<SourcedEdge>, names: map<string, string>)
    requires out == Header + start + rest
    requires StartLinesFor(start, es, names)
    requires |rest| == |flat|
    requires forall k :: 0 <= k < |flat| ==>
      Resolvable(flat[k].1, names) && rest[k] == ExpectedLine(flat[k].0, flat[k].1, names)
    ensures IsDiagram(out, es, flat, names)
  {
    forall k | 0 <= k < |start|
      ensures out[3 + k] == start[k]
    {
    }
    forall k | 0 <= k < |rest|
      ensures out[3 + |start| + k] == rest[k]
    {
    }
  }

  /** A rendered diagram is the header, then the process-level lines, then the step lines. */
  lemma RenderParts(p: KernelProcess)
    requires Render(p).Success?
    ensures StepNames(p.steps).Success?
    ensures
      var names := StepNames(p.steps).value;
      && StartLines(p.edges, p.steps, names).Success?
      && StepLines(p.steps, names).Success?
      && Render(p).value == Header + StartLines(p.edges, p.steps, names).value + StepLines(p.steps, names).value
  {
  }

  /** `ToMermaid(ProcessBuilder)`: build the process, then render it. */
  method BuilderToMermaid<B>(processBuilder: B, build: B -> KernelProcess) returns (r: Lines)
    ensures r == Render(build(processBuilder))
  {
    var process := build(processBuilder);
    r := ToMermaid(process);
  }

  /** The algorithm as the source writes it: a string builder appended to in
      nested loops, after the name dictionary is built. */
  method ToMermaid(process: KernelProcess) returns (r: Lines)
    ensures r == Render(process)
  {
    var sb := ["flowchart LR"];
    var stepNames :- StepNames(process.steps);
    sb := sb + ["Start[Start]", "End[End]"];
    ghost var expected := Then(Header, Cat(StartLines(process.edges, process.steps, stepNames), StepLines(process.steps, stepNames)));
    assert expected == Render(process);
    assert sb == Header && process.edges[0..] == process.edges;

    var i := 0;
    while i < |process.edges|
      invariant 0 <= i <= |process.edges|
      invariant expected == Then(sb, Cat(StartLines(process.edges[i..], process.steps, stepNames), StepLines(process.steps, stepNames)))
    {
      var (stepId, edges) := process.edges[i];
      assert process.edges[i..][1..] == process.edges[i + 1..];
      CatAssoc(StartGroupLines(stepId, edges, process.steps, stepNames),
               StartLines(process.edges[i + 1..], process.steps, stepNames),
               StepLines(process.steps, stepNames));
      ghost var later := Cat(StartLines(process.edges[i + 1..], process.steps, stepNames), StepLines(process.steps, stepNames));
      var j := 0;
      while j < |edges|
        invariant 0 <= j <= |edges|
        invariant expected == Then(sb, Cat(StartGroupLines(stepId, edges[j..], process.steps, stepNames), later))
      {
        var edge := edges[j];
        assert edges[j..][1..] == edges[j + 1..];
        CatAssoc(StartLine(stepId, edge, process.steps, stepNames),
                 StartGroupLines(stepId, edges[j + 1..], process.steps, stepNames), later);
        ThenCat(sb, StartLine(stepId, edge, process.steps, stepNames),
                Cat(StartGroupLines(stepId, edges[j + 1..], process.steps, stepNames), later));
        if edge.targetStepId !in stepNames {
          return Failure(StepIdNotFound(edge.targetStepId));
        }
        var targetStepName := stepNames[edge.targetStepId];
        var found :- AnyStepHasKey(process.steps, stepId);
        if !found {
          var line := "Start[Start] --> " + targetStepName + "[" + targetStepName + "]";
          assert line == "Start[Start] --> " + Node(targetStepName);
          sb := sb + [line];
        } else {
          assert sb + [] == sb;
        }
        j := j + 1;
      }
      CatEmpty(later);
      i := i + 1;
    }
    CatEmpty(StepLines(process.steps, stepNames));

    i := 0;
    while i < |process.steps|
      invariant 0 <= i <= |process.steps|
      invariant expected == Then(sb, StepLines(process.steps[i..], stepNames))
    {
      var step := process.steps[i];
      var stepName := step.name;
      assert process.steps[i..][1..] == process.steps[i + 1..];
      ghost var later := StepLines(process.steps[i + 1..], stepNames);
      if step.edges != None {
        var groups := step.edges.value;
        var g := 0;
        while g < |groups|
          invariant 0 <= g <= |groups|
          invariant expected == Then(sb, Cat(EventLines(stepName, groups[g..], stepNames), later))
        {
          var (eventId, stepEdges) := groups[g];
          assert groups[g..][1..] == groups[g + 1..];
          CatAssoc(EdgeLines(stepName, stepEdges, stepNames), EventLines(stepName, groups[g + 1..], stepNames), later);
          ghost var laterEvents := Cat(EventLines(stepName, groups[g + 1..], stepNames), later);
          var j := 0;
          while j < |stepEdges|
            invariant 0 <= j <= |stepEdges|
            invariant expected == Then(sb, Cat(EdgeLines(stepName, stepEdges[j..], stepNames), laterEvents))
          {
            var edge := stepEdges[j];
            assert stepEdges[j..][1..] == stepEdges[j + 1..];
            CatAssoc(EdgeLine(stepName, edge, stepNames), EdgeLines(stepName, stepEdges[j + 1..], stepNames), laterEvents);
            ThenCat(sb, EdgeLine(stepName, edge, stepNames), Cat(EdgeLines(stepName, stepEdges[j + 1..], stepNames), laterEvents));
            var source := stepName + "[" + stepName + "]";
            var target: string;
            if IsEndFunction(edge.outputTarget.functionName) {
              target := "End[End]";
            } else {
              if edge.targetStepId !in stepNames {
                return Failure(StepIdNotFound(edge.targetStepId));
              }
              var targetStepName := stepNames[edge.targetStepId];
              target := targetStepName + "[" + targetStepName + "]";
            }
            var conditionLabel := if edge.condition != None then "|Condition|" else "";
            sb := sb + [source + " -->" + conditionLabel + " " + target];
            j := j + 1;
          }
          CatEmpty(laterEvents);
          g := g + 1;
        }
        CatEmpty(later);
      } else {
        CatEmpty(later);
      }
      i := i + 1;
    }
    assert process.steps[i..] == [] && sb + [] == sb;
    r := Success(sb);
  }
}
