/**
 * The bounded analyst graph: routing of backend/app/agents/supervisor.py and the
 * nodes, edges and budget of backend/app/agents/workflow.py. The router, the critic
 * and every tool are the environment: one arbitrary `Input` per node execution.
 */
module AgentGraph {
  import opened Wrappers

  // ------------------------------------------------------------------- state

  datatype Route = Retriever | Web | Data | Finish

  datatype Reason = ToolCalls | Deadline

  /** The entries of `steps`, one per node execution. */
  datatype StepName =
    | Routed(route: Route)
    | StoppedBy(reason: Reason)
    | RetrieverRan | WebRan | WebUnavailable | DataRan | DataUnavailable
    | Generated
    | Approved | Rejected

  datatype Citation = Citation(kind: string, title: string)

  datatype AgentState = AgentState(
    documents: seq<string>, sqlResult: Option<string>, citations: seq<Citation>,
    answer: string, steps: seq<StepName>, revisions: nat)

  const NEW_STATE := AgentState([], None, [], "", [], 0)

  datatype Dependencies = Dependencies(
    maxSteps: nat, maxRevisions: nat, maxToolCalls: nat, webEnabled: bool, sqlEnabled: bool,
    numericQuestion: bool)

  // ----------------------------------------------------------------- routing

  /** What the routing model said: a route, nothing usable, or a permanent refusal. */
  datatype Reply = Names(route: Route) | Unusable | PermanentRefusal

  predicate IsEvidence(step: StepName)
  {
    step == RetrieverRan || step == WebRan || step == WebUnavailable || step == DataRan || step == DataUnavailable
  }

  predicate HasGathered(steps: seq<StepName>)
  {
    steps != [] && (IsEvidence(steps[|steps| - 1]) || HasGathered(steps[..|steps| - 1]))
  }

  /** The `allowed` set of evidence routes, by membership. */
  datatype Allowed = Allowed(retriever: bool, web: bool, data: bool) {
    predicate Has(route: Route)
    {
      match route
      case Retriever => retriever
      case Web => web
      case Data => data
      case Finish => false
    }

    predicate IsEmpty()
    {
      !retriever && !web && !data
    }
  }

  function FallbackRoute(steps: seq<StepName>, allowed: Allowed, numeric: bool): Route
  {
    if allowed.data && numeric && DataRan !in steps then Data
    else if allowed.retriever && RetrieverRan !in steps then Retriever
    else if allowed.web && WebRan !in steps then Web
    else Finish
  }

  /** `None`: the refusal is raised. */
  function ChooseRoute(
    steps: seq<StepName>, reply: Reply, allowed: Allowed, maxSteps: nat, numeric: bool): Option<Route>
  {
    if |steps| >= maxSteps then Some(Finish)
    else
      var mustGather := !allowed.IsEmpty() && !HasGathered(steps);
      match reply
      case PermanentRefusal => None
      case Unusable => Some(FallbackRoute(steps, allowed, numeric))
      case Names(route) =>
        var offered := allowed.Has(route) || (route == Finish && !mustGather);
        Some(if offered then route else FallbackRoute(steps, allowed, numeric))
  }

  // ------------------------------------------------------------------ budget

  function ExhaustedReason(toolCalls: nat, maxToolCalls: nat, late: bool): Option<Reason>
  {
    if toolCalls >= maxToolCalls then Some(ToolCalls) else if late then Some(Deadline) else None
  }

  class RunBudget {
    const maxToolCalls: nat
    var toolCalls: nat

    constructor (maxToolCalls: nat)
      ensures this.maxToolCalls == maxToolCalls && toolCalls == 0
    {
      this.maxToolCalls, toolCalls := maxToolCalls, 0;
    }

    method RecordToolCall()
      modifies this
      ensures toolCalls == old(toolCalls) + 1
    {
      toolCalls := toolCalls + 1;
    }

    /** `late`: the clock has passed the deadline, when there is one. */
    method Exhausted(late: bool) returns (reason: Option<Reason>)
      ensures reason == ExhaustedReason(toolCalls, maxToolCalls, late)
    {
      if toolCalls >= maxToolCalls {
        return Some(ToolCalls);
      }
      if late {
        return Some(Deadline);
      }
      return None;
    }
  }

  // ------------------------------------------------------------------- nodes

  datatype Node = SupervisorNode | RetrieverNode | WebNode | DataNode | GenerateNode | CriticNode | End | Failed

  /** The environment's answers to one node: each node reads the fields it needs. */
  datatype Input = Input(
    late: bool, reply: Reply, raises: bool, found: seq<string>, webUp: bool, answer: string, approves: bool)

  /** `late` stays true once the deadline has passed; `executed` counts node executions. */
  datatype Graph = Graph(node: Node, state: AgentState, toolCalls: nat, late: bool, executed: nat)

  const ENTRY := Graph(SupervisorNode, NEW_STATE, 0, false, 0)

  function EvidenceRoutes(deps: Dependencies): Allowed
  {
    Allowed(true, deps.webEnabled, deps.sqlEnabled)
  }

  function NodeOf(route: Route): Node
  {
    match route
    case Retriever => RetrieverNode
    case Web => WebNode
    case Data => DataNode
    case Finish => GenerateNode
  }

  function Cite(kind: string, found: seq<string>): (citations: seq<Citation>)
    ensures |citations| == |found|
  {
    seq(|found|, i requires 0 <= i < |found| => Citation(kind, found[i]))
  }

  function Append(s: AgentState, step: StepName): AgentState
  {
    s.(steps := s.steps + [step])
  }

  function Supervise(deps: Dependencies, g: Graph, input: Input): Graph
  {
    var late := g.late || input.late;
    match ExhaustedReason(g.toolCalls, deps.maxToolCalls, late)
    case Some(reason) => g.(node := GenerateNode, state := Append(g.state, StoppedBy(reason)), late := late)
    case None =>
      match ChooseRoute(g.state.steps, input.reply, EvidenceRoutes(deps), deps.maxSteps, deps.numericQuestion)
      case None => g.(node := Failed, late := late)
      case Some(route) =>
        g.(node := NodeOf(route), state := Append(g.state, Routed(route)), late := late,
           toolCalls := g.toolCalls + if route == Finish then 0 else 1)
  }

  function Retrieve(s: AgentState, found: seq<string>): AgentState
  {
    Append(s, RetrieverRan).(documents := s.documents + found, citations := s.citations + Cite("document", found))
  }

  function SearchWeb(s: AgentState, webUp: bool, found: seq<string>): AgentState
  {
    if webUp then Append(s, WebRan).(documents := s.documents + found, citations := s.citations + Cite("web", found))
    else Append(s, WebUnavailable)
  }

  function QueryData(deps: Dependencies, s: AgentState, result: string): AgentState
  {
    if deps.sqlEnabled then
      Append(s, DataRan).(sqlResult := Some(result), citations := s.citations + [Citation("analytics", result)])
    else Append(s, DataUnavailable)
  }

  function Review(deps: Dependencies, g: Graph, approves: bool): Graph
  {
    var revise := !approves && g.state.revisions < deps.maxRevisions;
    g.(node := if revise then SupervisorNode else End,
       state := Append(g.state, if approves then Approved else Rejected).(
         revisions := g.state.revisions + if approves then 0 else 1))
  }

  /** One node execution; an exception from the node ends the run. */
  function Execute(deps: Dependencies, g: Graph, input: Input): Graph
  {
    if g.node == End || g.node == Failed then g
    else
      var h := g.(executed := g.executed + 1);
      if input.raises then h.(node := Failed)
      else
        match g.node
        case SupervisorNode => Supervise(deps, h, input)
        case RetrieverNode => h.(node := SupervisorNode, state := Retrieve(h.state, input.found))
        case WebNode => h.(node := SupervisorNode, state := SearchWeb(h.state, input.webUp, input.found))
        case DataNode => h.(node := SupervisorNode, state := QueryData(deps, h.state, input.answer))
        case GenerateNode =>
          if input.answer == "" then h.(node := Failed)
          else h.(node := CriticNode, state := Append(h.state, Generated).(answer := input.answer))
        case CriticNode => Review(deps, h, input.approves)
        case _ => h
  }

  function ExecuteAll(deps: Dependencies, inputs: seq<Input>): Graph
  {
    if inputs == [] then ENTRY
    else Execute(deps, ExecuteAll(deps, inputs[..|inputs| - 1]), inputs[|inputs| - 1])
  }

  /** The recursion limit `run_workflow` passes to the graph. */
  function Limit(deps: Dependencies): nat
  {
    if 4 * deps.maxSteps > 8 then 4 * deps.maxSteps else 8
  }

  predicate Stopped(g: Graph)
  {
    g.node == End || g.node == Failed
  }

  /** A longer run has executed no fewer nodes. */
  lemma {:induction false} ExecutedGrows(deps: Dependencies, inputs: seq<Input>, i: nat)
    requires i <= |inputs|
    ensures ExecuteAll(deps, inputs[..i]).executed <= ExecuteAll(deps, inputs).executed
    decreases |inputs| - i
  {
    if i < |inputs| {
      ExecutedGrows(deps, inputs, i + 1);
      assert inputs[..i + 1][..i] == inputs[..i];
    } else {
      assert inputs[..i] == inputs;
    }
  }

  /** One node, with the budget object of the run. */
  method Step(deps: Dependencies, budget: RunBudget, g: Graph, input: Input) returns (h: Graph)
    requires budget.toolCalls == g.toolCalls && budget.maxToolCalls == deps.maxToolCalls && !Stopped(g)
    modifies budget
    ensures h == Execute(deps, g, input) && budget.toolCalls == h.toolCalls && h.executed == g.executed + 1
  {
    if g.node == SupervisorNode && !input.raises {
      h := SupervisorStep(deps, budget, g.(executed := g.executed + 1), input);
    } else {
      h := Execute(deps, g, input);
    }
  }

  method SupervisorStep(deps: Dependencies, budget: RunBudget, g: Graph, input: Input) returns (h: Graph)
    requires budget.toolCalls == g.toolCalls && budget.maxToolCalls == deps.maxToolCalls
    modifies budget
    ensures h == Supervise(deps, g, input) && budget.toolCalls == h.toolCalls
  {
    var late := g.late || input.late;
    var exhausted := budget.Exhausted(late);
    if exhausted.Some? {
      return g.(node := GenerateNode, state := Append(g.state, StoppedBy(exhausted.value)), late := late);
    }
    var route := ChooseRoute(g.state.steps, input.reply, EvidenceRoutes(deps), deps.maxSteps, deps.numericQuestion);
    if route == None {
      return g.(node := Failed, late := late);
    }
    if route.value != Finish {
      budget.RecordToolCall();
    }
    h := g.(node := NodeOf(route.value), state := Append(g.state, Routed(route.value)), late := late,
            toolCalls := budget.toolCalls);
  }

  /**
   * The compiled graph's loop: it follows the step function until the graph stops, the
   * inputs end, or another node would exceed the recursion limit, which is an error.
   */
  method RunWorkflow(deps: Dependencies, inputs: seq<Input>) returns (final: Graph, recursionError: bool)
    ensures recursionError <==> ExecuteAll(deps, inputs).executed > Limit(deps)
    ensures !recursionError ==> final == ExecuteAll(deps, inputs)
    ensures recursionError ==> final.executed == Limit(deps) && !Stopped(final)
  {
    var budget := new RunBudget(deps.maxToolCalls);
    final, recursionError := ENTRY, false;
    for i := 0 to |inputs|
      invariant final == ExecuteAll(deps, inputs[..i]) && final.executed <= Limit(deps)
      invariant budget.toolCalls == final.toolCalls && budget.maxToolCalls == deps.maxToolCalls
    {
      assert inputs[..i + 1][..i] == inputs[..i];
      if Stopped(final) {
        continue;
      }
      if final.executed == Limit(deps) {
        ExecutedGrows(deps, inputs, i + 1);
        return final, true;
      }
      final := Step(deps, budget, final, inputs[i]);
    }
    assert inputs[..|inputs|] == inputs;
  }
}
