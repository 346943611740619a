/**
 * The compiled graph of `agent/graph.py`: the three nodes wired
 * planner → architect → coder, with a conditional edge that sends the coder
 * back to itself until it reports "DONE", run under a caller-supplied ceiling
 * on node executions.
 *
 * The runner is written over a table of node functions, as the graph runtime
 * is written over whatever callables were added as nodes; `Nodes` is the
 * table `agent/graph.py` builds. The runner's properties rest on two contracts
 * of the table, each proved once for `Nodes`: the coder moves its cursor as
 * `CoderShape` says, and no node changes anything outside the root.
 */
module Graph {
  import opened Paths
  import FS = FileStore
  import opened Orchestrator
  import opened Wrappers

  type NodeTable = (Node, GraphState, FS.Tree) -> NodeResult

  /** `graph.add_node(...)` for the three nodes. */
  function Exec(node: Node, s: GraphState, t: FS.Tree, root: Path, o: Oracles): NodeResult
    requires ValidRoot(root)
  {
    match node
    case Planner => PlannerNode(s, t, o)
    case Architect => ArchitectNode(s, t, o)
    case Coder => CoderNode(s, t, root, o)
  }

  function Nodes(root: Path, o: Oracles): NodeTable
    requires ValidRoot(root)
  {
    (node: Node, s: GraphState, t: FS.Tree) => Exec(node, s, t, root, o)
  }

  /** The edges: planner to architect to coder, and coder to END on "DONE", to itself otherwise. */
  function Successor(node: Node, s: GraphState): (r: Option<Node>)
    ensures r.None? <==> node == Coder && s.status == Some("DONE")
    ensures r.Some? ==> r.value == (if node == Planner then Architect else Coder)
  {
    match node
    case Planner => Some(Architect)
    case Architect => Some(Coder)
    case Coder => if s.status == Some("DONE") then None else Some(Coder)
  }

  /** Runs the graph from `node`, allowing at most `fuel` more node executions. */
  function Run(nodes: NodeTable, node: Node, s: GraphState, t: FS.Tree, fuel: nat): (r: RunResult)
    ensures r.runs <= fuel && (fuel > 0 <==> r.runs > 0)
    decreases fuel
  {
    if fuel == 0 then Aborted(RecursionLimit, t, 0)
    else match nodes(node, s, t)
      case Raised(f, t1) => Aborted(f, t1, 1)
      case Returned(s1, t1) =>
        match Successor(node, s1)
        case None => Completed(s1, t1, 1)
        case Some(next) =>
          var r := Run(nodes, next, s1, t1, fuel - 1);
          r.(runs := r.runs + 1)
  }

  /** `agent.invoke({"user_prompt": request}, {"recursion_limit": limit})`. */
  function Invoke(request: string, t: FS.Tree, root: Path, o: Oracles, limit: nat): (r: RunResult)
    requires ValidRoot(root)
    ensures r.runs <= limit && (limit > 0 <==> r.runs > 0)
    ensures limit == 0 ==> r == Aborted(RecursionLimit, t, 0)
  {
    Run(Nodes(root, o), Planner, NoKeys.(userPrompt := Some(request)), t, limit)
  }

  // ----- What the runner relies on of the nodes -----

  ghost predicate CoderBehaves(nodes: NodeTable) {
    forall s, t :: CoderShape(s, nodes(Coder, s, t))
  }

  /** The tree after a change is confined to the root, well formed, and keeps the root's place free of files. */
  ghost predicate TreeKept(a: FS.Tree, b: FS.Tree, root: Path) {
    FS.Confined(a, b, root) && FS.WellFormed(b) && FS.RootClear(b, root)
  }

  ghost predicate KeepsTree(nodes: NodeTable, root: Path) {
    forall node, s, t :: FS.WellFormed(t) && FS.RootClear(t, root) ==> TreeKept(t, nodes(node, s, t).tree, root)
  }

  lemma NodesCoderBehaves(root: Path, o: Oracles)
    requires ValidRoot(root)
    ensures CoderBehaves(Nodes(root, o))
  {
    forall s, t ensures CoderShape(s, Nodes(root, o)(Coder, s, t)) {
    }
  }

  /** Each node keeps the tree: the planner and the architect leave it alone, the coder stays below the root. */
  lemma ExecKeepsTree(node: Node, s: GraphState, t: FS.Tree, root: Path, o: Oracles)
    requires ValidRoot(root) && FS.WellFormed(t) && FS.RootClear(t, root)
    ensures TreeKept(t, Exec(node, s, t, root, o).tree, root)
  {
    match node
    case Planner => assert PlannerNode(s, t, o).tree == t;
    case Architect => assert ArchitectNode(s, t, o).tree == t;
    case Coder => CoderConfined(s, t, root, o);
  }

  lemma NodesKeepTree(root: Path, o: Oracles)
    requires ValidRoot(root)
    ensures KeepsTree(Nodes(root, o), root)
  {
    forall node, s, t | FS.WellFormed(t) && FS.RootClear(t, root)
      ensures TreeKept(t, Nodes(root, o)(node, s, t).tree, root)
    {
      ExecKeepsTree(node, s, t, root, o);
    }
  }

  // ----- The run -----

  /** A run that ends normally ends on a coder execution that reported "DONE" with its cursor at the end. */
  lemma {:induction false} CompletedIsDone(nodes: NodeTable, node: Node, s: GraphState, t: FS.Tree, fuel: nat)
    requires CoderBehaves(nodes) && Run(nodes, node, s, t, fuel).Completed?
    ensures var r := Run(nodes, node, s, t, fuel);
            && r.state.status == Some("DONE") && r.state.coderState.Some?
            && r.state.coderState.value.currentStepIdx >= |r.state.coderState.value.taskPlan.implementationSteps|
    decreases fuel
  {
    var r1 := nodes(node, s, t);
    assert CoderShape(s, nodes(Coder, s, t));
    if Successor(node, r1.state).Some? {
      CompletedIsDone(nodes, Successor(node, r1.state).value, r1.state, r1.tree, fuel - 1);
    }
  }

  /**
   * From a cursor at step `k` of `n`, a completed run takes exactly `n - k + 1`
   * coder executions, ends with the cursor at `n`, and keeps the task plan.
   */
  lemma {:induction false} CoderRunCount(nodes: NodeTable, s: GraphState, t: FS.Tree, fuel: nat)
    requires CoderBehaves(nodes) && Run(nodes, Coder, s, t, fuel).Completed?
    ensures Cursor(s).Some?
    ensures var cs := Cursor(s).value;
            var n := |cs.taskPlan.implementationSteps|;
            var r := Run(nodes, Coder, s, t, fuel);
            && r.state.coderState.Some?
            && r.state.coderState.value.taskPlan == cs.taskPlan
            && r.runs == (if cs.currentStepIdx >= n then 1 else n - cs.currentStepIdx + 1)
            && r.state.coderState.value.currentStepIdx == (if cs.currentStepIdx >= n then cs.currentStepIdx else n)
    decreases fuel
  {
    var r1 := nodes(Coder, s, t);
    assert CoderShape(s, r1);
    if Successor(Coder, r1.state).Some? {
      CoderRunCount(nodes, r1.state, r1.tree, fuel - 1);
    }
  }

  /** Every coder execution from the cursor on returns, the final "DONE" report included. */
  ghost predicate StepsSucceed(nodes: NodeTable, cs: CoderState, t: FS.Tree)
    decreases |cs.taskPlan.implementationSteps| - cs.currentStepIdx
  {
    var r := nodes(Coder, NoKeys.(coderState := Some(cs)), t);
    r.Returned?
    && (cs.currentStepIdx < |cs.taskPlan.implementationSteps| ==>
          StepsSucceed(nodes, cs.(currentStepIdx := cs.currentStepIdx + 1), r.tree))
  }

  /**
   * When every step returns, the coder loop from step `k` of `n` reaches
   * "DONE" with the cursor at `n` exactly when the fuel covers its `n - k + 1`
   * executions, and otherwise stops at the ceiling.
   */
  lemma {:induction false} CoderLoop(nodes: NodeTable, cs: CoderState, t: FS.Tree, fuel: nat)
    requires CoderBehaves(nodes) && StepsSucceed(nodes, cs, t)
    requires cs.currentStepIdx <= |cs.taskPlan.implementationSteps|
    ensures var n := |cs.taskPlan.implementationSteps|;
            var r := Run(nodes, Coder, NoKeys.(coderState := Some(cs)), t, fuel);
            && (fuel >= n - cs.currentStepIdx + 1 ==>
                  r.Completed? && r.runs == n - cs.currentStepIdx + 1 && r.state.status == Some("DONE")
                  && r.state.coderState == Some(cs.(currentStepIdx := n)))
            && (fuel < n - cs.currentStepIdx + 1 ==> r.Aborted? && r.failure == RecursionLimit)
    decreases |cs.taskPlan.implementationSteps| - cs.currentStepIdx
  {
    var s := NoKeys.(coderState := Some(cs));
    var r1 := nodes(Coder, s, t);
    assert CoderShape(s, r1);
    if fuel > 0 && cs.currentStepIdx < |cs.taskPlan.implementationSteps| {
      CoderLoop(nodes, cs.(currentStepIdx := cs.currentStepIdx + 1), r1.tree, fuel - 1);
    }
  }

  /** However the nodes behave otherwise, a run of nodes that keep the tree keeps it. */
  lemma {:induction false} RunKeepsTree(nodes: NodeTable, root: Path, node: Node, s: GraphState, t: FS.Tree, fuel: nat)
    requires KeepsTree(nodes, root) && FS.WellFormed(t) && FS.RootClear(t, root)
    ensures TreeKept(t, Run(nodes, node, s, t, fuel).tree, root)
    decreases fuel
  {
    if fuel > 0 {
      var r1 := nodes(node, s, t);
      assert TreeKept(t, r1.tree, root);
      if r1.Returned? && Successor(node, r1.state).Some? {
        var r := Run(nodes, Successor(node, r1.state).value, r1.state, r1.tree, fuel - 1);
        RunKeepsTree(nodes, root, Successor(node, r1.state).value, r1.state, r1.tree, fuel - 1);
        FS.ConfinedTransitive(t, r1.tree, r.tree, root);
      }
    } else {
      FS.ConfinedTransitive(t, t, t, root);
    }
  }

  // ----- The graph of `agent/graph.py` -----

  /** Once the cursor is at the end, a coder run is a single no-op execution reporting "DONE". */
  lemma DoneIsFinal(cs: CoderState, t: FS.Tree, root: Path, o: Oracles, fuel: nat)
    requires ValidRoot(root) && cs.currentStepIdx >= |cs.taskPlan.implementationSteps| && fuel >= 1
    ensures Run(Nodes(root, o), Coder, NoKeys.(coderState := Some(cs)), t, fuel)
            == Completed(NoKeys.(coderState := Some(cs), status := Some("DONE")), t, 1)
  {
    CoderDoneIsNoop(cs, t, root, o, o);
    var done := NoKeys.(coderState := Some(cs), status := Some("DONE"));
    assert Nodes(root, o)(Coder, NoKeys.(coderState := Some(cs)), t) == Returned(done, t);
  }

  /** A run whose planner and architect both return goes on as the coder run from the architect's state, two executions later. */
  lemma RunThroughArchitect(nodes: NodeTable, s0: GraphState, sP: GraphState, sA: GraphState, t: FS.Tree, fuel: nat)
    requires fuel >= 2
    requires nodes(Planner, s0, t) == Returned(sP, t) && nodes(Architect, sP, t) == Returned(sA, t)
    ensures var r := Run(nodes, Coder, sA, t, fuel - 2);
            Run(nodes, Planner, s0, t, fuel) == r.(runs := r.runs + 2)
  {
    var rC := Run(nodes, Coder, sA, t, fuel - 2);
    var rA := Run(nodes, Architect, sP, t, fuel - 1);
    assert rA == rC.(runs := rC.runs + 1);
    assert Run(nodes, Planner, s0, t, fuel) == rA.(runs := rA.runs + 1);
  }

  /** Once both model calls have answered, the run goes on as a coder run over the architect's task plan. */
  lemma PipelineUnfold(request: string, t: FS.Tree, root: Path, o: Oracles, limit: nat)
    requires ValidRoot(root) && limit >= 2
    requires o.planner(request).Answer? && o.architect(o.planner(request).value).Answer?
    ensures var tp := o.architect(o.planner(request).value).value.(plan := o.planner(request).value);
            var r := Run(Nodes(root, o), Coder, NoKeys.(taskPlan := Some(tp)), t, limit - 2);
            Invoke(request, t, root, o, limit) == r.(runs := r.runs + 2)
  {
    var nodes := Nodes(root, o);
    var s0 := NoKeys.(userPrompt := Some(request));
    var plan := o.planner(request).value;
    var sP := NoKeys.(plan := Some(plan));
    assert nodes(Planner, s0, t) == Returned(sP, t);
    var tp := o.architect(plan).value.(plan := plan);
    var sA := NoKeys.(taskPlan := Some(tp));
    assert nodes(Architect, sP, t) == Returned(sA, t);
    RunThroughArchitect(nodes, s0, sP, sA, t, limit);
  }

  /**
   * A completed run took exactly `n + 3` node executions, `n` being the number
   * of steps the architect gave, and ends in "DONE" with the cursor at `n` over
   * that task plan carrying the planner's plan.
   */
  lemma RunCount(request: string, t: FS.Tree, root: Path, o: Oracles, limit: nat)
    requires ValidRoot(root) && Invoke(request, t, root, o, limit).Completed?
    ensures o.planner(request).Answer? && o.architect(o.planner(request).value).Answer?
    ensures var n := |o.architect(o.planner(request).value).value.implementationSteps|;
            var r := Invoke(request, t, root, o, limit);
            && r.state.status == Some("DONE") && r.state.coderState.Some?
            && r.runs == n + 3 && r.state.coderState.value.currentStepIdx == n
            && r.state.coderState.value.taskPlan
               == o.architect(o.planner(request).value).value.(plan := o.planner(request).value)
  {
    var nodes := Nodes(root, o);
    var s0 := NoKeys.(userPrompt := Some(request));
    assert nodes(Planner, s0, t) == PlannerNode(s0, t, o);
    assert limit >= 1 && PlannerNode(s0, t, o).Returned?;
    var sP := NoKeys.(plan := Some(o.planner(request).value));
    assert Run(nodes, Architect, sP, t, limit - 1).Completed?;
    assert nodes(Architect, sP, t) == ArchitectNode(sP, t, o);
    assert limit >= 2 && ArchitectNode(sP, t, o).Returned?;
    PipelineUnfold(request, t, root, o, limit);
    var tp := o.architect(o.planner(request).value).value.(plan := o.planner(request).value);
    var sA := NoKeys.(taskPlan := Some(tp));
    NodesCoderBehaves(root, o);
    CoderRunCount(nodes, sA, t, limit - 2);
    CompletedIsDone(nodes, Coder, sA, t, limit - 2);
  }

  /** A ceiling below `n + 3`, `n` being the number of steps the architect gave, never lets a run finish, whatever the sub-agent does. */
  lemma CeilingPreventsDone(request: string, t: FS.Tree, root: Path, o: Oracles, limit: nat, plan: Plan, tp: TaskPlan)
    requires ValidRoot(root)
    requires o.planner(request) == Answer(plan) && o.architect(plan) == Answer(tp)
    requires limit < |tp.implementationSteps| + 3
    ensures Invoke(request, t, root, o, limit).Aborted?
  {
    if Invoke(request, t, root, o, limit).Completed? {
      RunCount(request, t, root, o, limit);
    }
  }

  /** Two states the coder treats alike run alike. */
  lemma RunFromCursor(nodes: NodeTable, a: GraphState, b: GraphState, t: FS.Tree, fuel: nat)
    requires nodes(Coder, a, t) == nodes(Coder, b, t)
    ensures Run(nodes, Coder, a, t, fuel) == Run(nodes, Coder, b, t, fuel)
  {
  }

  /**
   * With answers from both model calls and every coder step returning, a
   * ceiling of at least `n + 3` ends in "DONE" after exactly `n + 3` node
   * executions, with the cursor at `n` over the architect's steps and the
   * planner's plan; any lower ceiling aborts at the ceiling.
   */
  lemma Progress(request: string, t: FS.Tree, root: Path, o: Oracles, limit: nat, plan: Plan, tp: TaskPlan)
    requires ValidRoot(root)
    requires o.planner(request) == Answer(plan) && o.architect(plan) == Answer(tp)
    requires StepsSucceed(Nodes(root, o), CoderState(tp.(plan := plan), 0), t)
    ensures var n := |tp.implementationSteps|;
            var r := Invoke(request, t, root, o, limit);
            && (limit >= n + 3 ==>
                  r.Completed? && r.runs == n + 3 && r.state.status == Some("DONE")
                  && r.state.coderState == Some(CoderState(tp.(plan := plan), n)))
            && (limit < n + 3 ==> r.Aborted? && r.failure == RecursionLimit)
  {
    var nodes := Nodes(root, o);
    var tp1 := tp.(plan := plan);
    var s0 := NoKeys.(userPrompt := Some(request));
    var sP := NoKeys.(plan := Some(plan));
    var sA := NoKeys.(taskPlan := Some(tp1));
    assert nodes(Planner, s0, t) == Returned(sP, t);
    assert nodes(Architect, sP, t) == Returned(sA, t);
    CoderStartsAtZero(tp1, t, root, o);
    NodesCoderBehaves(root, o);
    RunProgress(nodes, s0, sP, sA, CoderState(tp1, 0), t, limit);
  }

  /** The same, for any node table whose planner and architect return and whose coder steps all return. */
  lemma RunProgress(nodes: NodeTable, s0: GraphState, sP: GraphState, sA: GraphState, cs: CoderState, t: FS.Tree, fuel: nat)
    requires CoderBehaves(nodes) && StepsSucceed(nodes, cs, t) && cs.currentStepIdx == 0
    requires nodes(Planner, s0, t) == Returned(sP, t) && nodes(Architect, sP, t) == Returned(sA, t)
    requires nodes(Coder, sA, t) == nodes(Coder, NoKeys.(coderState := Some(cs)), t)
    ensures var n := |cs.taskPlan.implementationSteps|;
            var r := Run(nodes, Planner, s0, t, fuel);
            && (fuel >= n + 3 ==>
                  r.Completed? && r.runs == n + 3 && r.state.status == Some("DONE")
                  && r.state.coderState == Some(cs.(currentStepIdx := n)))
            && (fuel < n + 3 ==> r.Aborted? && r.failure == RecursionLimit)
  {
    if fuel >= 2 {
      CoderLoop(nodes, cs, t, fuel - 2);
      RunToCursor(nodes, s0, sP, sA, NoKeys.(coderState := Some(cs)), t, fuel);
    } else if fuel == 1 {
      assert Run(nodes, Architect, sP, t, 0) == Aborted(RecursionLimit, t, 0);
    }
  }

  /** After planner and architect, the run is a coder loop from cursor 0 over the task plan, two executions later. */
  lemma PipelineToCursor(request: string, t: FS.Tree, root: Path, o: Oracles, limit: nat, plan: Plan, tp: TaskPlan)
    requires ValidRoot(root) && limit >= 2
    requires o.planner(request) == Answer(plan) && o.architect(plan) == Answer(tp)
    ensures var r := Run(Nodes(root, o), Coder, NoKeys.(coderState := Some(CoderState(tp.(plan := plan), 0))), t, limit - 2);
            Invoke(request, t, root, o, limit) == r.(runs := r.runs + 2)
  {
    var nodes := Nodes(root, o);
    var tp1 := tp.(plan := plan);
    var s0 := NoKeys.(userPrompt := Some(request));
    var sP := NoKeys.(plan := Some(plan));
    var sA := NoKeys.(taskPlan := Some(tp1));
    var sC := NoKeys.(coderState := Some(CoderState(tp1, 0)));
    assert nodes(Planner, s0, t) == Returned(sP, t);
    assert nodes(Architect, sP, t) == Returned(sA, t);
    CoderStartsAtZero(tp1, t, root, o);
    assert nodes(Coder, sA, t) == nodes(Coder, sC, t);
    RunToCursor(nodes, s0, sP, sA, sC, t, limit);
  }

  /** The same, for any node table: a coder that treats the two states alike runs alike after the first two nodes. */
  lemma RunToCursor(nodes: NodeTable, s0: GraphState, sP: GraphState, sA: GraphState, sC: GraphState, t: FS.Tree, fuel: nat)
    requires fuel >= 2
    requires nodes(Planner, s0, t) == Returned(sP, t) && nodes(Architect, sP, t) == Returned(sA, t)
    requires nodes(Coder, sA, t) == nodes(Coder, sC, t)
    ensures var r := Run(nodes, Coder, sC, t, fuel - 2);
            Run(nodes, Planner, s0, t, fuel) == r.(runs := r.runs + 2)
  {
    RunThroughArchitect(nodes, s0, sP, sA, t, fuel);
    RunFromCursor(nodes, sA, sC, t, fuel - 2);
  }

  /** A coder run over a task plan with no cursor yet is the run from cursor 0. */
  lemma RunStartsAtZero(tp: TaskPlan, t: FS.Tree, root: Path, o: Oracles, fuel: nat)
    requires ValidRoot(root)
    ensures Run(Nodes(root, o), Coder, NoKeys.(taskPlan := Some(tp)), t, fuel)
            == Run(Nodes(root, o), Coder, NoKeys.(coderState := Some(CoderState(tp, 0))), t, fuel)
  {
    var sA := NoKeys.(taskPlan := Some(tp));
    var sC := NoKeys.(coderState := Some(CoderState(tp, 0)));
    CoderStartsAtZero(tp, t, root, o);
    assert Nodes(root, o)(Coder, sA, t) == Nodes(root, o)(Coder, sC, t);
    RunFromCursor(Nodes(root, o), sA, sC, t, fuel);
  }

  /** A ceiling below two stops the run before the coder. */
  lemma TinyLimitAborts(request: string, t: FS.Tree, root: Path, o: Oracles, limit: nat, plan: Plan)
    requires ValidRoot(root) && limit < 2 && o.planner(request) == Answer(plan)
    ensures var r := Invoke(request, t, root, o, limit);
            r.Aborted? && r.failure == RecursionLimit
  {
    if limit == 1 {
      var s0 := NoKeys.(userPrompt := Some(request));
      assert Nodes(root, o)(Planner, s0, t) == Returned(NoKeys.(plan := Some(plan)), t);
    }
  }

  /** However the oracles behave, a run changes nothing outside the root and leaves the tree well formed. */
  lemma InvokeKeepsTree(request: string, t: FS.Tree, root: Path, o: Oracles, limit: nat)
    requires ValidRoot(root) && FS.WellFormed(t) && FS.RootClear(t, root)
    ensures TreeKept(t, Invoke(request, t, root, o, limit).tree, root)
  {
    NodesKeepTree(root, o);
    RunKeepsTree(Nodes(root, o), root, Planner, NoKeys.(userPrompt := Some(request)), t, limit);
  }

  // ----- A single-page request -----

  /** The task plan for one page: a single step that creates file `name`. */
  function PageTasks(plan: Plan, name: string, task: string): TaskPlan {
    TaskPlan(plan, [ImplementationStep(name, task)])
  }

  /** Oracles that answer with `plan`, decompose it into the one step, and have the sub-agent write `html` to the page. */
  function PageOracles(plan: Plan, name: string, task: string, html: string): Oracles {
    Oracles(
      (request: string) => Answer(plan),
      (p: Plan) => Answer(PageTasks(p, name, task)),
      (prompt: string, tree: FS.Tree) => Finished([WriteFileCall(name, html)]))
  }

  /** The page's one coder step returns, having ensured the root and written the page. */
  lemma PageStep(plan: Plan, name: string, task: string, t: FS.Tree, root: Path, html: string)
    requires ValidRoot(root) && FS.Read(t, root, name).result.Ok?
    ensures CoderNode(NoKeys.(coderState := Some(CoderState(PageTasks(plan, name, task), 0))), t, root,
                      PageOracles(plan, name, task, html))
            == Returned(NoKeys.(coderState := Some(CoderState(PageTasks(plan, name, task), 1))),
                        FS.Write(FS.WithRoot(t, root), root, name, html).tree)
  {
    var w := FS.Write(FS.WithRoot(t, root), root, name, html).tree;
    assert RunTools(w, root, []) == w;
    assert RunTools(FS.WithRoot(t, root), root, [WriteFileCall(name, html)]) == w;
  }

  /** The page's coder loop: one step that writes the page, then the "DONE" report. */
  lemma PageLoop(plan: Plan, name: string, task: string, t: FS.Tree, root: Path, html: string, fuel: nat)
    requires ValidRoot(root) && FS.Read(t, root, name).result.Ok? && fuel >= 2
    ensures var tp := PageTasks(plan, name, task);
            Run(Nodes(root, PageOracles(plan, name, task, html)), Coder, NoKeys.(taskPlan := Some(tp)), t, fuel)
            == Completed(NoKeys.(coderState := Some(CoderState(tp, 1)), status := Some("DONE")),
                         FS.Write(FS.WithRoot(t, root), root, name, html).tree, 2)
  {
    var o := PageOracles(plan, name, task, html);
    var nodes := Nodes(root, o);
    var tp := PageTasks(plan, name, task);
    var w := FS.Write(FS.WithRoot(t, root), root, name, html).tree;
    PageStep(plan, name, task, t, root, html);
    var sA := NoKeys.(taskPlan := Some(tp));
    var sC := NoKeys.(coderState := Some(CoderState(tp, 0)));
    var s1 := NoKeys.(coderState := Some(CoderState(tp, 1)));
    CoderStartsAtZero(tp, t, root, o);
    assert nodes(Coder, sA, t) == Returned(s1, w);
    DoneIsFinal(CoderState(tp, 1), w, root, o, fuel - 1);
    RunStep(nodes, Coder, sA, t, s1, w, Coder, fuel);
  }

  /** A node that returns hands the run on to its successor, one execution later. */
  lemma RunStep(nodes: NodeTable, node: Node, s: GraphState, t: FS.Tree, s1: GraphState, t1: FS.Tree, next: Node, fuel: nat)
    requires fuel >= 1 && nodes(node, s, t) == Returned(s1, t1) && Successor(node, s1) == Some(next)
    ensures var r := Run(nodes, next, s1, t1, fuel - 1);
            Run(nodes, node, s, t, fuel) == r.(runs := r.runs + 1)
  {
  }

  /** The whole single-page run: four node executions that end in "DONE" with the page written. */
  lemma PageRun(request: string, plan: Plan, name: string, task: string, t: FS.Tree, root: Path, html: string)
    requires ValidRoot(root) && FS.Read(t, root, name).result.Ok?
    ensures var tp := PageTasks(plan, name, task);
            Invoke(request, t, root, PageOracles(plan, name, task, html), 100)
            == Completed(NoKeys.(coderState := Some(CoderState(tp, 1)), status := Some("DONE")),
                         FS.Write(FS.WithRoot(t, root), root, name, html).tree, 4)
  {
    var o := PageOracles(plan, name, task, html);
    var nodes := Nodes(root, o);
    var tp := PageTasks(plan, name, task);
    var s0 := NoKeys.(userPrompt := Some(request));
    var sP := NoKeys.(plan := Some(plan));
    var sA := NoKeys.(taskPlan := Some(tp));
    assert tp.(plan := plan) == tp;
    assert nodes(Planner, s0, t) == Returned(sP, t);
    assert nodes(Architect, sP, t) == Returned(sA, t);
    RunThroughArchitect(nodes, s0, sP, sA, t, 100);
    PageLoop(plan, name, task, t, root, html, 98);
  }

  /**
   * A request for a single page (for instance `index.html`, "create the page")
   * ends, within a ceiling of 100, in "DONE" after one step and four node
   * executions, with the page written under the root.
   */
  lemma SinglePage(request: string, plan: Plan, name: string, task: string, t: FS.Tree, root: Path, html: string)
    requires ValidRoot(root) && FS.WellFormed(t) && FS.RootClear(t, root)
    requires IsName(name) && root + [name] !in t.dirs
    ensures var r := Invoke(request, t, root, PageOracles(plan, name, task, html), 100);
            && r.Completed? && r.runs == 4 && r.state.status == Some("DONE")
            && r.state.coderState == Some(CoderState(PageTasks(plan, name, task), 1))
            && root + [name] in r.tree.files && r.tree.files[root + [name]] == FS.Text(html)
  {
    FS.PageWritten(t, root, name, html);
    PageRun(request, plan, name, task, t, root, html);
  }
}
