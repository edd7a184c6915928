/** Bounds and grounding of the graph, for every router, critic and tool. */
module AgentTheorems {
  import opened Wrappers
  import opened AgentGraph

  /** Evidence passes of two nodes, answering passes of three. */
  function Bound(deps: Dependencies): nat
  {
    2 * Min(deps.maxToolCalls, (deps.maxSteps + 1) / 2) + 3 * (deps.maxRevisions + 1)
  }

  // ----------------------------------------------------------- the node bound

  /** Nodes executed beyond whole passes: an evidence pass counts two, an answer three. */
  function Beyond(node: Node): int
  {
    match node
    case RetrieverNode => -1
    case WebNode => -1
    case DataNode => -1
    case GenerateNode => 1
    case CriticNode => 2
    case _ => 0
  }

  predicate EvidenceNode(node: Node)
  {
    node == RetrieverNode || node == WebNode || node == DataNode
  }

  /** The account of a run that has not failed: `reviews` answers have been reviewed. */
  ghost predicate Accounted(deps: Dependencies, g: Graph, reviews: nat)
  {
    && g.executed == |g.state.steps|
    && g.executed == 2 * g.toolCalls + 3 * reviews + Beyond(g.node)
    && g.toolCalls <= Min(deps.maxToolCalls, (deps.maxSteps + 1) / 2)
    && (if g.node == End then reviews <= deps.maxRevisions + 1 else reviews == g.state.revisions <= deps.maxRevisions)
    && (EvidenceNode(g.node) ==> g.toolCalls > 0)
  }

  ghost predicate Within(deps: Dependencies, g: Graph)
  {
    if g.node == Failed then g.executed <= Bound(deps) else exists reviews: nat :: Accounted(deps, g, reviews)
  }

  lemma ExecuteStaysWithin(deps: Dependencies, g: Graph, input: Input)
    requires Within(deps, g)
    ensures Within(deps, Execute(deps, g, input))
  {
    if g.node != Failed {
      var reviews: nat :| Accounted(deps, g, reviews);
      var h := Execute(deps, g, input);
      if h.node != Failed {
        assert Accounted(deps, h, if g.node == CriticNode then reviews + 1 else reviews);
      }
    }
  }

  /** Every run executes at most `Bound` nodes. */
  lemma {:induction false} RunIsBounded(deps: Dependencies, inputs: seq<Input>)
    ensures Within(deps, ExecuteAll(deps, inputs))
    ensures ExecuteAll(deps, inputs).executed <= Bound(deps)
    decreases |inputs|
  {
    if inputs == [] {
      assert Accounted(deps, ENTRY, 0);
    } else {
      RunIsBounded(deps, inputs[..|inputs| - 1]);
      ExecuteStaysWithin(deps, ExecuteAll(deps, inputs[..|inputs| - 1]), inputs[|inputs| - 1]);
    }
  }

  // --------------------------------------------------------- the bound is met

  /** A router that always wants documents, and a critic that is never satisfied. */
  const GREEDY := Input(false, Names(Retriever), false, [], true, "answer", false)

  function Greedy(n: nat): (inputs: seq<Input>)
    ensures |inputs| == n
  {
    seq(n, _ => GREEDY)
  }

  lemma GreedyNext(deps: Dependencies, n: nat)
    ensures ExecuteAll(deps, Greedy(n + 1)) == Execute(deps, ExecuteAll(deps, Greedy(n)), GREEDY)
  {
    assert Greedy(n + 1)[..n] == Greedy(n);
  }

  /** The greedy run stands at the supervisor after `calls` tool calls, `n` steps, `r` revisions. */
  ghost predicate AtSupervisor(g: Graph, calls: nat, n: nat, r: nat)
  {
    && g.node == SupervisorNode && g.toolCalls == calls && !g.late
    && g.executed == |g.state.steps| == n && g.state.revisions == r
  }

  /** Two greedy nodes from a supervisor that may gather. */
  lemma GreedyEvidencePass(deps: Dependencies, g: Graph, calls: nat, n: nat)
    requires AtSupervisor(g, calls, n, 0) && calls < deps.maxToolCalls && n < deps.maxSteps
    ensures AtSupervisor(Execute(deps, Execute(deps, g, GREEDY), GREEDY), calls + 1, n + 2, 0)
  {
    assert Execute(deps, g, GREEDY).node == RetrieverNode;
  }

  /** After `k` evidence passes the greedy run stands at the supervisor again. */
  lemma {:induction false} GreedyGathers(deps: Dependencies, k: nat)
    requires k <= deps.maxToolCalls && 2 * k <= deps.maxSteps + 1
    ensures AtSupervisor(ExecuteAll(deps, Greedy(2 * k)), k, 2 * k, 0)
  {
    if k > 0 {
      var n := 2 * (k - 1);
      GreedyGathers(deps, k - 1);
      GreedyEvidencePass(deps, ExecuteAll(deps, Greedy(n)), k - 1, n);
      GreedyNext(deps, n);
      GreedyNext(deps, n + 1);
      assert n + 1 + 1 == 2 * k;
    }
  }

  /** Three greedy nodes from a supervisor that may not gather: answer, rejection, revision. */
  lemma GreedyPass(deps: Dependencies, g: Graph, calls: nat, n: nat, r: nat)
    requires AtSupervisor(g, calls, n, r) && (calls >= deps.maxToolCalls || n >= deps.maxSteps)
    ensures var h := Execute(deps, Execute(deps, Execute(deps, g, GREEDY), GREEDY), GREEDY);
            && h.executed == n + 3
            && if r < deps.maxRevisions then AtSupervisor(h, calls, n + 3, r + 1) else h.node == End
  {
    var supervised := Execute(deps, g, GREEDY);
    assert supervised.node == GenerateNode && supervised.toolCalls == g.toolCalls;
    var generated := Execute(deps, supervised, GREEDY);
    assert generated.node == CriticNode;
  }

  lemma GreedyPassNext(deps: Dependencies, calls: nat, n: nat, r: nat)
    requires AtSupervisor(ExecuteAll(deps, Greedy(n)), calls, n, r)
    requires calls >= deps.maxToolCalls || n >= deps.maxSteps
    ensures var h := ExecuteAll(deps, Greedy(n + 3));
            && h.executed == n + 3
            && if r < deps.maxRevisions then AtSupervisor(h, calls, n + 3, r + 1) else h.node == End
  {
    GreedyPass(deps, ExecuteAll(deps, Greedy(n)), calls, n, r);
    GreedyNext(deps, n);
    GreedyNext(deps, n + 1);
    GreedyNext(deps, n + 2);
  }

  lemma GatheringIsOver(deps: Dependencies, k: nat)
    requires k == Min(deps.maxToolCalls, (deps.maxSteps + 1) / 2)
    ensures k >= deps.maxToolCalls || 2 * k >= deps.maxSteps
    ensures k <= deps.maxToolCalls && 2 * k <= deps.maxSteps + 1
  {
  }

  /** With gathering over, each pass is supervisor, generate, critic; then it is revised. */
  lemma {:induction false} GreedyRevises(deps: Dependencies, k: nat, r: nat)
    requires k >= deps.maxToolCalls || 2 * k >= deps.maxSteps
    requires k <= deps.maxToolCalls && 2 * k <= deps.maxSteps + 1 && r <= deps.maxRevisions
    ensures AtSupervisor(ExecuteAll(deps, Greedy(2 * k + 3 * r)), k, 2 * k + 3 * r, r)
  {
    if r == 0 {
      GreedyGathers(deps, k);
    } else {
      var n := 2 * k + 3 * (r - 1);
      GreedyRevises(deps, k, r - 1);
      GreedyPassNext(deps, k, n, r - 1);
      assert n + 3 == 2 * k + 3 * r;
    }
  }

  lemma GreedyEnds(deps: Dependencies, k: nat, n: nat)
    requires k == Min(deps.maxToolCalls, (deps.maxSteps + 1) / 2) && n == 2 * k + 3 * deps.maxRevisions
    ensures var g := ExecuteAll(deps, Greedy(n + 3)); g.node == End && g.executed == n + 3
  {
    GatheringIsOver(deps, k);
    GreedyRevises(deps, k, deps.maxRevisions);
    GreedyPassNext(deps, k, n, deps.maxRevisions);
  }

  /** The greedy run completes after exactly `Bound` nodes. */
  lemma BoundIsMet(deps: Dependencies)
    ensures var g := ExecuteAll(deps, Greedy(Bound(deps))); g.node == End && g.executed == Bound(deps)
  {
    var k := Min(deps.maxToolCalls, (deps.maxSteps + 1) / 2);
    assert Bound(deps) == 2 * k + 3 * deps.maxRevisions + 3;
    GreedyEnds(deps, k, 2 * k + 3 * deps.maxRevisions);
  }

  ghost predicate NoRunExceedsLimit(deps: Dependencies)
  {
    forall inputs :: ExecuteAll(deps, inputs).executed <= Limit(deps)
  }

  /** The recursion limit is safe for every router and critic exactly when `Bound` fits it. */
  lemma LimitIsSafeExactlyWhen(deps: Dependencies)
    ensures NoRunExceedsLimit(deps) <==> Bound(deps) <= Limit(deps)
  {
    if Bound(deps) <= Limit(deps) {
      forall inputs ensures ExecuteAll(deps, inputs).executed <= Limit(deps) {
        RunIsBounded(deps, inputs);
      }
    } else {
      BoundIsMet(deps);
      assert ExecuteAll(deps, Greedy(Bound(deps))).executed > Limit(deps);
    }
  }

  /**
   * With at most one revision, or at most three and four steps or more, the limit is
   * safe; when two tool calls are allowed, no other setting of up to three is.
   */
  lemma LimitIsSafeForSettings(deps: Dependencies)
    ensures deps.maxRevisions <= 1 || (deps.maxRevisions <= 3 && deps.maxSteps >= 4) ==> NoRunExceedsLimit(deps)
    ensures deps.maxRevisions <= 3 && deps.maxToolCalls >= 2 ==>
              (NoRunExceedsLimit(deps) <==> deps.maxRevisions <= 1 || deps.maxSteps >= 4)
  {
    LimitIsSafeExactlyWhen(deps);
    assert 2 * ((deps.maxSteps + 1) / 2) <= deps.maxSteps + 1;
  }

  // ---------------------------------------------------------------- grounding

  /** No tool calls, no steps, or no time were allowed to the first pass. */
  predicate Forced(deps: Dependencies, first: Input)
  {
    deps.maxToolCalls == 0 || deps.maxSteps == 0 || first.late
  }

  /** Only enabled nodes are reached, so no query ever finds the data tool missing. */
  ghost predicate Enabled(deps: Dependencies, g: Graph)
  {
    && (g.node == WebNode ==> deps.webEnabled)
    && (g.node == DataNode ==> deps.sqlEnabled)
    && Count(g.state.steps, DataUnavailable) == 0
  }

  /** Citations are documents plus queries. */
  ghost predicate Cited(g: Graph)
  {
    |g.state.citations| == |g.state.documents| + Count(g.state.steps, DataRan)
  }

  /**
   * Either the first pass was forced to finish, which no later pass undoes, and nothing
   * is ever gathered; or it went to an evidence node, whose step is the second of the run.
   */
  ghost predicate Grounded(deps: Dependencies, g: Graph, forced: bool)
  {
    var steps := g.state.steps;
    if g.node == Failed then true
    else if steps == [] then false
    else if forced then
      && (deps.maxToolCalls == 0 || deps.maxSteps == 0 || g.late)
      && !HasGathered(steps) && !EvidenceNode(g.node)
    else if |steps| == 1 then EvidenceNode(g.node) else IsEvidence(steps[1])
  }

  lemma AppendKeepsSteps(steps: seq<StepName>, step: StepName)
    ensures HasGathered(steps + [step]) <==> HasGathered(steps) || IsEvidence(step)
    ensures Count(steps + [step], DataRan) == Count(steps, DataRan) + if step == DataRan then 1 else 0
    ensures Count(steps + [step], DataUnavailable)
         == Count(steps, DataUnavailable) + if step == DataUnavailable then 1 else 0
  {
    assert (steps + [step])[..|steps|] == steps;
  }

  lemma {:induction false} GatheredSomewhere(steps: seq<StepName>, i: nat)
    requires i < |steps| && IsEvidence(steps[i])
    ensures HasGathered(steps)
    decreases |steps|
  {
    if i < |steps| - 1 {
      GatheredSomewhere(steps[..|steps| - 1], i);
    }
  }

  /** Before anything was gathered, neither the router nor the fallback can finish. */
  lemma FirstRouteGathers(deps: Dependencies, steps: seq<StepName>, reply: Reply)
    requires |steps| < deps.maxSteps && !HasGathered(steps)
    ensures var route := ChooseRoute(steps, reply, EvidenceRoutes(deps), deps.maxSteps, deps.numericQuestion);
            route.Some? ==> EvidenceRoutes(deps).Has(route.value)
  {
    if RetrieverRan in steps {
      var i :| 0 <= i < |steps| && steps[i] == RetrieverRan;
      GatheredSomewhere(steps, i);
    }
  }

  /** Every route chosen has an edge to a node that is enabled. */
  lemma RoutesAreEnabled(deps: Dependencies, steps: seq<StepName>, reply: Reply)
    ensures var route := ChooseRoute(steps, reply, EvidenceRoutes(deps), deps.maxSteps, deps.numericQuestion);
            route.Some? ==> (EvidenceRoutes(deps).Has(route.value) || route.value == Finish)
                            && (NodeOf(route.value) == WebNode ==> deps.webEnabled)
                            && (NodeOf(route.value) == DataNode ==> deps.sqlEnabled)
  {
  }

  lemma OneStepGathers(step: StepName)
    ensures HasGathered([step]) <==> IsEvidence(step)
  {
    assert [step][..0] == [];
  }

  /** From the entry the supervisor fails, finishes when forced, or goes to a specialist. */
  lemma FirstPass(deps: Dependencies, input: Input)
    ensures var h := Execute(deps, ENTRY, input);
            h.node == Failed
            || (&& |h.state.steps| == 1 && !IsEvidence(h.state.steps[0])
                && if Forced(deps, input)
                   then h.node == GenerateNode
                        && (deps.maxToolCalls == 0 || deps.maxSteps == 0 || h.late)
                   else EvidenceNode(h.node))
  {
    if deps.maxSteps > 0 {
      FirstRouteGathers(deps, [], input.reply);
    }
  }

  lemma FirstPassIsGrounded(deps: Dependencies, input: Input)
    ensures Grounded(deps, Execute(deps, ENTRY, input), Forced(deps, input))
  {
    FirstPass(deps, input);
    var h := Execute(deps, ENTRY, input);
    if h.node != Failed {
      OneStepGathers(h.state.steps[0]);
      assert h.state.steps == [h.state.steps[0]];
    }
  }

  lemma LaterPassIsGrounded(deps: Dependencies, g: Graph, input: Input, forced: bool)
    requires Grounded(deps, g, forced) && g.node == SupervisorNode
    ensures Grounded(deps, Supervise(deps, g, input), forced)
  {
    var h, steps := Supervise(deps, g, input), g.state.steps;
    if h.node != Failed {
      AppendKeepsSteps(steps, h.state.steps[|steps|]);
    }
  }

  lemma EvidenceNodeKeepsGrounded(deps: Dependencies, g: Graph, input: Input, forced: bool)
    requires Grounded(deps, g, forced) && EvidenceNode(g.node)
    ensures Grounded(deps, Execute(deps, g, input), forced)
  {
  }

  lemma GenerateKeepsGrounded(deps: Dependencies, g: Graph, input: Input, forced: bool)
    requires Grounded(deps, g, forced) && g.node == GenerateNode
    ensures Grounded(deps, Execute(deps, g, input), forced)
  {
    AppendKeepsSteps(g.state.steps, Generated);
  }

  lemma CriticKeepsGrounded(deps: Dependencies, g: Graph, input: Input, forced: bool)
    requires Grounded(deps, g, forced) && g.node == CriticNode
    ensures Grounded(deps, Execute(deps, g, input), forced)
  {
    AppendKeepsSteps(g.state.steps, if input.approves then Approved else Rejected);
  }

  lemma ExecuteKeepsGrounded(deps: Dependencies, g: Graph, input: Input, forced: bool)
    requires Grounded(deps, g, forced)
    ensures Grounded(deps, Execute(deps, g, input), forced)
  {
    if g.node == SupervisorNode {
      LaterPassIsGrounded(deps, g.(executed := g.executed + 1), input, forced);
    } else if EvidenceNode(g.node) {
      EvidenceNodeKeepsGrounded(deps, g, input, forced);
    } else if g.node == GenerateNode {
      GenerateKeepsGrounded(deps, g, input, forced);
    } else if g.node == CriticNode {
      CriticKeepsGrounded(deps, g, input, forced);
    }
  }

  /** A node adds at most one step; only evidence nodes add documents or citations. */
  lemma ExecuteAppends(deps: Dependencies, g: Graph, input: Input)
    ensures var h, s := Execute(deps, g, input), g.state;
            && (h.state.steps == s.steps || exists step :: h.state.steps == s.steps + [step])
            && (h.state.steps == s.steps || g.node == WebNode || g.node == DataNode || g.node == RetrieverNode
                || (h.state.steps[|s.steps|] != DataRan && h.state.steps[|s.steps|] != DataUnavailable))
            && (EvidenceNode(g.node) || (h.state.documents == s.documents && h.state.citations == s.citations))
  {
    var h, s := Execute(deps, g, input), g.state;
    if h.state.steps != s.steps {
      assert h.state.steps == s.steps + [h.state.steps[|s.steps|]];
    }
  }

  lemma EvidenceKeepsEnabled(deps: Dependencies, g: Graph, input: Input)
    requires Enabled(deps, g) && EvidenceNode(g.node)
    ensures Enabled(deps, Execute(deps, g, input))
  {
    var h, steps := Execute(deps, g, input), g.state.steps;
    if h.node != Failed {
      AppendKeepsSteps(steps, h.state.steps[|steps|]);
    }
  }

  lemma AnswerKeepsEnabled(deps: Dependencies, g: Graph, input: Input)
    requires Enabled(deps, g) && !EvidenceNode(g.node)
    ensures Count(Execute(deps, g, input).state.steps, DataUnavailable) == 0
  {
    var h, steps := Execute(deps, g, input), g.state.steps;
    ExecuteAppends(deps, g, input);
    if h.state.steps != steps {
      AppendKeepsSteps(steps, h.state.steps[|steps|]);
    }
  }

  lemma NextNodeIsEnabled(deps: Dependencies, g: Graph, input: Input)
    requires !EvidenceNode(g.node)
    ensures var next := Execute(deps, g, input).node;
            (next == WebNode ==> deps.webEnabled) && (next == DataNode ==> deps.sqlEnabled)
  {
    if g.node == SupervisorNode {
      RoutesAreEnabled(deps, g.state.steps, input.reply);
    }
  }

  lemma EvidenceKeepsCited(deps: Dependencies, g: Graph, input: Input)
    requires Cited(g) && EvidenceNode(g.node)
    ensures Cited(Execute(deps, g, input))
  {
    var h, steps := Execute(deps, g, input), g.state.steps;
    if |h.state.steps| > |steps| {
      AppendKeepsSteps(steps, h.state.steps[|steps|]);
    }
  }

  lemma ExecuteKeepsCited(deps: Dependencies, g: Graph, input: Input)
    requires Cited(g)
    ensures Cited(Execute(deps, g, input))
  {
    var h, steps := Execute(deps, g, input), g.state.steps;
    if EvidenceNode(g.node) {
      EvidenceKeepsCited(deps, g, input);
    } else {
      ExecuteAppends(deps, g, input);
      if h.state.steps != steps {
        AppendKeepsSteps(steps, h.state.steps[|steps|]);
      }
    }
  }

  lemma {:induction false} RunIsGrounded(deps: Dependencies, inputs: seq<Input>)
    ensures var g := ExecuteAll(deps, inputs);
            && Enabled(deps, g) && Cited(g)
            && (inputs != [] ==> Grounded(deps, g, Forced(deps, inputs[0])))
    decreases |inputs|
  {
    if inputs != [] {
      var n := |inputs| - 1;
      var before, input := ExecuteAll(deps, inputs[..n]), inputs[n];
      RunIsGrounded(deps, inputs[..n]);
      if EvidenceNode(before.node) {
        EvidenceKeepsEnabled(deps, before, input);
      } else {
        AnswerKeepsEnabled(deps, before, input);
        NextNodeIsEnabled(deps, before, input);
      }
      ExecuteKeepsCited(deps, before, input);
      if n == 0 {
        FirstPassIsGrounded(deps, input);
      } else {
        ExecuteKeepsGrounded(deps, before, input, Forced(deps, inputs[0]));
      }
    }
  }

  /**
   * Grounding: when an answer is due, evidence has been gathered if and only if the
   * first pass had a tool call, a step and time left.
   */
  lemma AnswersAreGrounded(deps: Dependencies, inputs: seq<Input>)
    ensures var g := ExecuteAll(deps, inputs);
            g.node == GenerateNode || g.node == CriticNode || g.node == End ==>
              inputs != [] && (HasGathered(g.state.steps) <==> !Forced(deps, inputs[0]))
  {
    RunIsGrounded(deps, inputs);
    var steps := ExecuteAll(deps, inputs).state.steps;
    if |steps| >= 2 && IsEvidence(steps[1]) {
      GatheredSomewhere(steps, 1);
    }
  }

  // ------------------------------------------------------------ what nodes do

  /** The supervisor may still gather: tool calls, time and steps are left. */
  predicate MayGather(deps: Dependencies, g: Graph, input: Input)
  {
    && g.node == SupervisorNode && !input.raises
    && g.toolCalls < deps.maxToolCalls && !g.late && !input.late && |g.state.steps| < deps.maxSteps
  }

  /** The router's choice is followed to the specialist it names, at the cost of a tool call. */
  lemma RouterIsObeyed(deps: Dependencies, g: Graph, input: Input)
    requires MayGather(deps, g, input) && input.reply.Names?
    ensures var h, route := Execute(deps, g, input), input.reply.route;
            && (route == Retriever ==> h.node == RetrieverNode)
            && (route == Web && deps.webEnabled ==> h.node == WebNode)
            && (route == Data && deps.sqlEnabled ==> h.node == DataNode)
            && (route == Finish && HasGathered(g.state.steps) ==> h.node == GenerateNode)
            && (h.node != GenerateNode ==> h.toolCalls == g.toolCalls + 1)
  {
  }

  /** Nothing is gathered without tool calls, time or steps; a refused provider ends the run. */
  lemma SupervisorStops(deps: Dependencies, g: Graph, input: Input)
    requires g.node == SupervisorNode && !input.raises
    ensures var h := Execute(deps, g, input);
            && (g.toolCalls >= deps.maxToolCalls ==>
                  h.node == GenerateNode && h.state.steps == g.state.steps + [StoppedBy(ToolCalls)])
            && (g.toolCalls < deps.maxToolCalls && (g.late || input.late) ==>
                  h.node == GenerateNode && h.state.steps == g.state.steps + [StoppedBy(Deadline)])
            && (!MayGather(deps, g, input) ==> h.node == GenerateNode && h.toolCalls == g.toolCalls)
            && (MayGather(deps, g, input) && input.reply == PermanentRefusal ==> h.node == Failed)
  {
  }

  /** Without a usable reply: data first for a numeric question, then documents, then the web. */
  lemma FallbackOrder(deps: Dependencies, g: Graph, input: Input)
    requires MayGather(deps, g, input) && input.reply == Unusable
    ensures var h, steps := Execute(deps, g, input), g.state.steps;
            var asks := deps.sqlEnabled && deps.numericQuestion && DataRan !in steps;
            && (h.node == DataNode <==> asks)
            && (h.node == RetrieverNode <==> !asks && RetrieverRan !in steps)
            && (h.node == WebNode <==> !asks && RetrieverRan in steps && deps.webEnabled && WebRan !in steps)
            && (h.node == GenerateNode
                <==> !asks && RetrieverRan in steps && !(deps.webEnabled && WebRan !in steps))
  {
  }

  /** What a specialist adds: what it found, with a citation of its kind for each. */
  lemma SpecialistsCite(deps: Dependencies, g: Graph, input: Input)
    requires EvidenceNode(g.node) && !input.raises
    ensures var s, h := g.state, Execute(deps, g, input);
            && h.node == SupervisorNode && h.toolCalls == g.toolCalls && h.state.answer == s.answer
            && (g.node == RetrieverNode ==>
                  && h.state.steps == s.steps + [RetrieverRan] && h.state.documents == s.documents + input.found
                  && Cites(s, h.state, "document", input.found) && h.state.sqlResult == s.sqlResult)
            && (g.node == WebNode && input.webUp ==>
                  && h.state.steps == s.steps + [WebRan] && h.state.documents == s.documents + input.found
                  && Cites(s, h.state, "web", input.found) && h.state.sqlResult == s.sqlResult)
            && (g.node == WebNode && !input.webUp ==> h.state == s.(steps := s.steps + [WebUnavailable]))
            && (g.node == DataNode && deps.sqlEnabled ==>
                  && h.state.steps == s.steps + [DataRan] && h.state.documents == s.documents
                  && Cites(s, h.state, "analytics", [input.answer]) && h.state.sqlResult == Some(input.answer))
  {
  }

  /** One more citation for each thing found, in order, behind those there were. */
  predicate Cites(s: AgentState, t: AgentState, kind: string, found: seq<string>)
  {
    && |t.citations| == |s.citations| + |found| && s.citations <= t.citations
    && forall i :: 0 <= i < |found| ==> t.citations[|s.citations| + i] == Citation(kind, found[i])
  }

  /** The critic ends the run when it approves or revisions are used up, and sends it back otherwise. */
  lemma CriticDecides(deps: Dependencies, g: Graph, input: Input)
    requires g.node == CriticNode && !input.raises
    ensures var h := Execute(deps, g, input);
            && (h.node == End <==> input.approves || g.state.revisions >= deps.maxRevisions)
            && (h.node == SupervisorNode <==> h.node != End)
            && h.state.revisions == g.state.revisions + (if input.approves then 0 else 1)
            && h.state.answer == g.state.answer
            && h.state.steps == g.state.steps + [if input.approves then Approved else Rejected]
  {
  }

  /** An empty answer fails the run; any other is the run's answer until it is revised. */
  lemma GenerationAnswers(deps: Dependencies, g: Graph, input: Input)
    requires g.node == GenerateNode && !input.raises
    ensures var h := Execute(deps, g, input);
            if input.answer == "" then h.node == Failed
            else h.node == CriticNode && h.state.answer == input.answer
                 && h.state.steps == g.state.steps + [Generated] && h.state.citations == g.state.citations
  {
  }

  /** An exception from a node ends the run where it stood; a run that ended stays so. */
  lemma ExceptionsEndRuns(deps: Dependencies, g: Graph, input: Input)
    ensures Stopped(g) ==> Execute(deps, g, input) == g
    ensures !Stopped(g) && input.raises ==>
              var h := Execute(deps, g, input); h.node == Failed && h.state == g.state && h.toolCalls == g.toolCalls
  {
  }

  /** A run that completes has an answer. */
  lemma {:induction false} CompletedRunsAnswer(deps: Dependencies, inputs: seq<Input>)
    ensures var g := ExecuteAll(deps, inputs);
            g.node == CriticNode || g.node == End ==> g.state.answer != ""
    decreases |inputs|
  {
    if inputs != [] {
      CompletedRunsAnswer(deps, inputs[..|inputs| - 1]);
    }
  }

  // ------------------------------------------------------- the fallback router

  /** A specialist for the route has run, or found its tool unavailable. */
  predicate Tried(route: Route, steps: seq<StepName>)
  {
    match route
    case Retriever => RetrieverRan in steps
    case Web => WebRan in steps || WebUnavailable in steps
    case Data => DataRan in steps || DataUnavailable in steps
    case Finish => false
  }

  /** The fallback's last choice: only the web is left, and it has answered nothing yet. */
  predicate WebIsLeft(deps: Dependencies, steps: seq<StepName>)
  {
    && deps.webEnabled && WebRan !in steps && RetrieverRan in steps
    && !(deps.sqlEnabled && deps.numericQuestion && DataRan !in steps)
  }

  lemma {:induction false} NotCounted(steps: seq<StepName>, step: StepName)
    requires Count(steps, step) == 0
    ensures step !in steps
  {
    if steps != [] {
      var init := steps[..|steps| - 1];
      NotCounted(init, step);
      assert steps == init + [steps[|steps| - 1]];
    }
  }

  /**
   * In every state of every run, the fallback router picks a route already tried if and
   * only if the web is all that is left and was found unavailable.
   */
  lemma FallbackRepeatsExactlyWhen(deps: Dependencies, inputs: seq<Input>)
    ensures var steps := ExecuteAll(deps, inputs).state.steps;
            Tried(FallbackRoute(steps, EvidenceRoutes(deps), deps.numericQuestion), steps)
            <==> WebIsLeft(deps, steps) && WebUnavailable in steps
  {
    RunIsGrounded(deps, inputs);
    NotCounted(ExecuteAll(deps, inputs).state.steps, DataUnavailable);
  }

  /** A router that says nothing usable, and a web that is down. */
  const LOST := Input(false, Unusable, false, [], false, "", false)

  lemma ExecuteNext(deps: Dependencies, inputs: seq<Input>, input: Input, more: seq<Input>)
    requires more == inputs + [input]
    ensures ExecuteAll(deps, more) == Execute(deps, ExecuteAll(deps, inputs), input)
  {
    assert more[..|inputs|] == inputs;
  }

  /** The run stands at the supervisor with these steps. */
  ghost predicate Routing(g: Graph, calls: nat, steps: seq<StepName>)
  {
    g.node == SupervisorNode && g.toolCalls == calls && !g.late && g.state.steps == steps
  }

  const GATHERED := [Routed(Retriever), RetrieverRan]
  const WEB_DOWN := [Routed(Retriever), RetrieverRan, Routed(Web), WebUnavailable]

  lemma LostGathers(deps: Dependencies, g: Graph)
    requires !deps.numericQuestion && deps.maxSteps >= 1 && deps.maxToolCalls >= 1 && Routing(g, 0, [])
    ensures Routing(Execute(deps, Execute(deps, g, LOST), LOST), 1, GATHERED)
  {
    assert Execute(deps, g, LOST).node == RetrieverNode;
  }

  lemma LostTriesWeb(deps: Dependencies, g: Graph)
    requires deps.webEnabled && !deps.numericQuestion && deps.maxSteps >= 3 && deps.maxToolCalls >= 2
    requires Routing(g, 1, GATHERED)
    ensures Routing(Execute(deps, Execute(deps, g, LOST), LOST), 2, WEB_DOWN)
  {
    assert GATHERED[1] == RetrieverRan;
    var h := Execute(deps, g, LOST);
    assert h.node == WebNode && h.state.steps == GATHERED + [Routed(Web)];
  }

  lemma LostTriesWebAgain(deps: Dependencies, g: Graph)
    requires deps.webEnabled && !deps.numericQuestion && deps.maxSteps >= 5 && deps.maxToolCalls >= 3
    requires Routing(g, 2, WEB_DOWN)
    ensures var h := Execute(deps, g, LOST);
            h.node == WebNode && h.toolCalls == 3 && h.state.steps == WEB_DOWN + [Routed(Web)]
  {
    assert WEB_DOWN[1] == RetrieverRan;
  }

  /** Such a run goes to the web a second time, at the cost of a tool call. */
  lemma FallbackRepeatsWeb(deps: Dependencies)
    requires deps.webEnabled && !deps.numericQuestion && deps.maxSteps >= 5 && deps.maxToolCalls >= 3
    ensures var g := ExecuteAll(deps, [LOST, LOST, LOST, LOST, LOST]);
            && g.node == WebNode && g.toolCalls == 3
            && g.state.steps == [Routed(Retriever), RetrieverRan, Routed(Web), WebUnavailable, Routed(Web)]
  {
    ExecuteNext(deps, [], LOST, [LOST]);
    ExecuteNext(deps, [LOST], LOST, [LOST, LOST]);
    LostGathers(deps, ENTRY);
    ExecuteNext(deps, [LOST, LOST], LOST, [LOST, LOST, LOST]);
    ExecuteNext(deps, [LOST, LOST, LOST], LOST, [LOST, LOST, LOST, LOST]);
    LostTriesWeb(deps, ExecuteAll(deps, [LOST, LOST]));
    ExecuteNext(deps, [LOST, LOST, LOST, LOST], LOST, [LOST, LOST, LOST, LOST, LOST]);
    LostTriesWebAgain(deps, ExecuteAll(deps, [LOST, LOST, LOST, LOST]));
  }
}
