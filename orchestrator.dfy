/**
 * The orchestration state machine of `agent/graph.py`: a planner node turns
 * the user's request into a `Plan`, an architect node turns the plan into a
 * `TaskPlan` of single-file steps, and a coder node walks a cursor over those
 * steps, reading each target file and handing it to a tool-using sub-agent,
 * until the cursor reaches the end and the run stops with status "DONE". The
 * graph runs under a caller-supplied ceiling on node executions.
 *
 * The two structured model calls and the ReAct sub-agent are oracles: the
 * calls may answer, answer `None`, or raise; the sub-agent sees its prompt and
 * the file tree and reports the tool calls it made, and whether it finished or
 * raised. The tool calls take effect through the file store's spec functions.
 *
 * The graph's state is a plain `dict` schema, so each node's returned dict
 * becomes the whole next state.
 */
module Orchestrator {
  import opened Paths
  import FS = FileStore
  import opened Wrappers

  datatype FileSpec = FileSpec(path: string, purpose: string)

  datatype Plan = Plan(name: string, description: string, techstack: string, files: seq<FileSpec>)

  datatype ImplementationStep = ImplementationStep(filepath: string, taskDescription: string)

  datatype TaskPlan = TaskPlan(plan: Plan, implementationSteps: seq<ImplementationStep>)

  /** The coder's cursor: the index of the next step to carry out. */
  datatype CoderState = CoderState(taskPlan: TaskPlan, currentStepIdx: nat)

  /** The graph's state dict; a key the dict lacks is `None`. */
  datatype GraphState = GraphState(
    userPrompt: Option<string>,
    plan: Option<Plan>,
    taskPlan: Option<TaskPlan>,
    coderState: Option<CoderState>,
    status: Option<string>)

  const NoKeys := GraphState(None, None, None, None, None)

  /** A structured model call: a parsed answer, `None`, or an exception. */
  datatype Reply<T> = Answer(value: T) | NoAnswer | CallRaised

  /** A tool call the sub-agent made, with its arguments. */
  datatype ToolCall =
    | ReadFileCall(path: string)
    | WriteFileCall(path: string, content: string)
    | ListFilesCall
    | GetCurrentDirectoryCall

  /** How the sub-agent's `invoke` ended, with the tool calls it made on the way. */
  datatype AgentRun = Finished(calls: seq<ToolCall>) | Crashed(calls: seq<ToolCall>)

  datatype Oracles = Oracles(
    planner: string -> Reply<Plan>,
    architect: Plan -> Reply<TaskPlan>,
    coder: (string, FS.Tree) -> AgentRun)

  datatype Node = Planner | Architect | Coder

  datatype Failure =
    | MissingKey(key: string)          // `state["…"]` on an absent key
    | NoResponse(node: Node)           // the structured call gave `None`: ValueError
    | ModelCallRaised(node: Node)      // the structured call itself raised
    | ReadFailed(error: FS.FsError)    // the coder's own `read_file.run` raised
    | SubAgentRaised                   // the ReAct sub-agent raised
    | RecursionLimit                   // the ceiling on node executions was reached

  /** A node either returns the next state or raises; the files it touched stay touched. */
  datatype NodeResult = Returned(state: GraphState, tree: FS.Tree) | Raised(failure: Failure, tree: FS.Tree)

  /** The whole run: it ends at END, or an exception aborts it. `runs` counts node executions. */
  datatype RunResult =
    | Completed(state: GraphState, tree: FS.Tree, runs: nat)
    | Aborted(failure: Failure, tree: FS.Tree, runs: nat)

  // ----- The sub-agent's tools -----

  /** The effect of one tool call on the tree; a tool error goes back to the agent and changes nothing more. */
  function ApplyTool(t: FS.Tree, root: Path, call: ToolCall): FS.Tree
    requires ValidRoot(root)
  {
    match call
    case ReadFileCall(path) => FS.Read(t, root, path).tree
    case WriteFileCall(path, content) => FS.Write(t, root, path, content).tree
    case ListFilesCall => FS.Ensured(t, root)
    case GetCurrentDirectoryCall => FS.Ensured(t, root)
  }

  function RunTools(t: FS.Tree, root: Path, calls: seq<ToolCall>): FS.Tree
    requires ValidRoot(root)
    decreases |calls|
  {
    if calls == [] then t else RunTools(ApplyTool(t, root, calls[0]), root, calls[1..])
  }

  // ----- The nodes -----

  /**
   * `planner_agent`: it raises when the model answers `None` or the call raises,
   * and otherwise returns exactly the plan; it touches no file.
   */
  function PlannerNode(s: GraphState, t: FS.Tree, o: Oracles): (r: NodeResult)
    ensures r.tree == t
    ensures s.userPrompt.None? ==> r == Raised(MissingKey("user_prompt"), t)
    ensures s.userPrompt.Some? ==>
              var reply := o.planner(s.userPrompt.value);
              && (reply.NoAnswer? <==> r == Raised(NoResponse(Planner), t))
              && (reply.Answer? <==> r.Returned?)
              && (reply.Answer? ==> r.state == NoKeys.(plan := Some(reply.value)))
  {
    if s.userPrompt.None? then Raised(MissingKey("user_prompt"), t)
    else match o.planner(s.userPrompt.value)
      case CallRaised => Raised(ModelCallRaised(Planner), t)
      case NoAnswer => Raised(NoResponse(Planner), t)
      case Answer(plan) => Returned(NoKeys.(plan := Some(plan)), t)
  }

  /**
   * `architect_agent`: it raises on `None`; otherwise its task plan carries the
   * input plan, whatever the call echoed, and the call's steps in order.
   */
  function ArchitectNode(s: GraphState, t: FS.Tree, o: Oracles): (r: NodeResult)
    ensures r.tree == t
    ensures s.plan.None? ==> r == Raised(MissingKey("plan"), t)
    ensures s.plan.Some? ==>
              var reply := o.architect(s.plan.value);
              && (reply.NoAnswer? <==> r == Raised(NoResponse(Architect), t))
              && (reply.Answer? <==> r.Returned?)
              && (r.Returned? ==> r.state.taskPlan.Some?
                                  && r.state.taskPlan.value.plan == s.plan.value
                                  && r.state.taskPlan.value.implementationSteps == reply.value.implementationSteps)
  {
    if s.plan.None? then Raised(MissingKey("plan"), t)
    else match o.architect(s.plan.value)
      case CallRaised => Raised(ModelCallRaised(Architect), t)
      case NoAnswer => Raised(NoResponse(Architect), t)
      case Answer(resp) => Returned(NoKeys.(taskPlan := Some(resp.(plan := s.plan.value))), t)
  }

  /** The cursor the coder works with: the stored one, or a fresh one at 0 over the task plan. */
  function Cursor(s: GraphState): Option<CoderState> {
    if s.coderState.Some? then s.coderState
    else if s.taskPlan.Some? then Some(CoderState(s.taskPlan.value, 0))
    else None
  }

  const BeginMarker: string := "---BEGIN CURRENT CONTENT---\n"
  const EndMarker: string := "\n---END CURRENT CONTENT---\n\n"
  const Instruction: string :=
    "Use the provided tools to accomplish the task by writing the complete, final content to the file."

  /** The part of the coder's user prompt before the file's content. */
  function PromptHead(step: ImplementationStep): string {
    "Here is the task you must perform:\n"
    + "Task: " + step.taskDescription + "\n"
    + "File to modify: " + step.filepath + "\n\n"
    + "Here is the current content of that file:\n"
    + BeginMarker
  }

  /** The user prompt the coder sends to the sub-agent. */
  function CoderPrompt(step: ImplementationStep, existing: string): string {
    PromptHead(step) + existing + EndMarker + Instruction
  }

  /**
   * `coder_agent`. A returning execution either reports "DONE" past the last
   * step or moves the cursor on by one (`CoderShape`); with no task plan it
   * raises a missing-key error, and otherwise it raises only when the read or
   * the sub-agent does.
   */
  function CoderNode(s: GraphState, t: FS.Tree, root: Path, o: Oracles): (r: NodeResult)
    requires ValidRoot(root)
    ensures CoderShape(s, r)
    ensures Cursor(s).None? ==> r == Raised(MissingKey("task_plan"), t)
    ensures Cursor(s).Some? && r.Raised? ==> r.failure.ReadFailed? || r.failure == SubAgentRaised
  {
    match Cursor(s)
    case None => Raised(MissingKey("task_plan"), t)
    case Some(cs) =>
      var steps := cs.taskPlan.implementationSteps;
      if cs.currentStepIdx >= |steps| then
        Returned(NoKeys.(coderState := Some(cs), status := Some("DONE")), t)
      else
        var step := steps[cs.currentStepIdx];
        var read := FS.Read(t, root, step.filepath);
        if read.result.Err? then Raised(ReadFailed(read.result.error), read.tree)
        else match o.coder(CoderPrompt(step, read.result.value), read.tree)
          case Crashed(calls) => Raised(SubAgentRaised, RunTools(read.tree, root, calls))
          case Finished(calls) =>
            var advanced := cs.(currentStepIdx := cs.currentStepIdx + 1);
            Returned(NoKeys.(coderState := Some(advanced)), RunTools(read.tree, root, calls))
  }

  // ----- The stages -----

  /** Without a cursor the coder behaves as with a cursor at step 0 of the task plan. */
  lemma CoderStartsAtZero(tp: TaskPlan, t: FS.Tree, root: Path, o: Oracles)
    requires ValidRoot(root)
    ensures CoderNode(NoKeys.(taskPlan := Some(tp)), t, root, o)
            == CoderNode(NoKeys.(coderState := Some(CoderState(tp, 0))), t, root, o)
  {
  }

  /** Past the last step the coder reports "DONE" with the same cursor, touching no file and asking no oracle. */
  lemma CoderDoneIsNoop(cs: CoderState, t: FS.Tree, root: Path, o1: Oracles, o2: Oracles)
    requires ValidRoot(root) && cs.currentStepIdx >= |cs.taskPlan.implementationSteps|
    ensures var s := NoKeys.(coderState := Some(cs));
            && CoderNode(s, t, root, o1) == CoderNode(s, t, root, o2)
            && CoderNode(s, t, root, o1) == Returned(NoKeys.(coderState := Some(cs), status := Some("DONE")), t)
  {
  }

  /**
   * What a coder execution that returns can look like: past the last step, a
   * "DONE" report with the cursor as it was; before it, the cursor moved on by
   * exactly one step over the same task plan.
   */
  ghost predicate CoderShape(s: GraphState, r: NodeResult) {
    r.Returned? ==>
      Cursor(s).Some? &&
      var cs := Cursor(s).value;
      if cs.currentStepIdx >= |cs.taskPlan.implementationSteps| then
        r.state == NoKeys.(coderState := Some(cs), status := Some("DONE"))
      else
        r.state == NoKeys.(coderState := Some(cs.(currentStepIdx := cs.currentStepIdx + 1)))
  }

  /** When the sub-agent raises the node raises too, so no cursor moved on is ever returned. */
  lemma SubAgentFailureKeepsCursor(cs: CoderState, t: FS.Tree, root: Path, o: Oracles)
    requires ValidRoot(root) && cs.currentStepIdx < |cs.taskPlan.implementationSteps|
    requires var step := cs.taskPlan.implementationSteps[cs.currentStepIdx];
             var read := FS.Read(t, root, step.filepath);
             read.result.Ok? && o.coder(CoderPrompt(step, read.result.value), read.tree).Crashed?
    ensures CoderNode(NoKeys.(coderState := Some(cs)), t, root, o).Raised?
    ensures CoderNode(NoKeys.(coderState := Some(cs)), t, root, o).failure == SubAgentRaised
  {
  }

  /** The prompt holds the task, the path, and the file's content between the two markers, recoverable by position. */
  lemma PromptEmbedsContent(step: ImplementationStep, existing: string)
    ensures var p := CoderPrompt(step, existing);
            var h := |PromptHead(step)|;
            && p[..h] == PromptHead(step)
            && p[h..h + |existing|] == existing
            && p[h + |existing|..] == EndMarker + Instruction
            && p[h - |BeginMarker|..h] == BeginMarker
  {
    var p := CoderPrompt(step, existing);
    var h := |PromptHead(step)|;
    assert p == PromptHead(step) + (existing + (EndMarker + Instruction));
    assert PromptHead(step)[h - |BeginMarker|..] == BeginMarker;
  }

  /** Content that differs gives a different prompt: the sub-agent always sees the file as it is. */
  lemma PromptInjective(step: ImplementationStep, a: string, b: string)
    requires CoderPrompt(step, a) == CoderPrompt(step, b)
    ensures a == b
  {
    PromptEmbedsContent(step, a);
    PromptEmbedsContent(step, b);
    assert |a| == |b|;
  }

  // ----- Confinement -----

  lemma {:induction false} RunToolsConfined(t: FS.Tree, root: Path, calls: seq<ToolCall>)
    requires ValidRoot(root) && FS.WellFormed(t) && FS.RootClear(t, root)
    ensures var t1 := RunTools(t, root, calls);
            FS.Confined(t, t1, root) && FS.WellFormed(t1) && FS.RootClear(t1, root)
    decreases |calls|
  {
    if calls != [] {
      var t1 := ApplyTool(t, root, calls[0]);
      if calls[0].WriteFileCall? {
        FS.WriteConfined(t, root, calls[0].path, calls[0].content);
        FS.WritePreserves(t, root, calls[0].path, calls[0].content);
      } else {
        FS.WithRootConfined(t, root);
        if calls[0].ReadFileCall? {
          FS.ReadConfined(t, root, calls[0].path);
        }
      }
      RunToolsConfined(t1, root, calls[1..]);
      FS.ConfinedTransitive(t, t1, RunTools(t1, root, calls[1..]), root);
    }
  }

  /** Reading the step's file, then running any tool calls on the tree it leaves, stays below the root. */
  lemma ReadThenToolsConfined(t: FS.Tree, root: Path, path: string, calls: seq<ToolCall>)
    requires ValidRoot(root) && FS.WellFormed(t) && FS.RootClear(t, root)
    ensures var t1 := FS.Read(t, root, path).tree;
            FS.Confined(t, t1, root) && FS.WellFormed(t1) && FS.RootClear(t1, root)
    ensures var t2 := RunTools(FS.Read(t, root, path).tree, root, calls);
            FS.Confined(t, t2, root) && FS.WellFormed(t2) && FS.RootClear(t2, root)
  {
    var t1 := FS.Read(t, root, path).tree;
    FS.WithRootConfined(t, root);
    FS.ReadConfined(t, root, path);
    RunToolsConfined(t1, root, calls);
    FS.ConfinedTransitive(t, t1, RunTools(t1, root, calls), root);
  }

  /** The sub-agent's tool calls for a step, given the read of its file: none when the read failed. */
  function StepCalls(step: ImplementationStep, read: FS.Outcome, o: Oracles): seq<ToolCall> {
    if read.result.Err? then [] else o.coder(CoderPrompt(step, read.result.value), read.tree).calls
  }

  /** The tree a coder execution leaves: the read's, then the sub-agent's tool calls on it. */
  ghost function CoderTree(s: GraphState, t: FS.Tree, root: Path, o: Oracles): FS.Tree
    requires ValidRoot(root)
  {
    if Cursor(s).None? then t
    else
      var cs := Cursor(s).value;
      if cs.currentStepIdx >= |cs.taskPlan.implementationSteps| then t
      else
        var step := cs.taskPlan.implementationSteps[cs.currentStepIdx];
        RunTools(FS.Read(t, root, step.filepath).tree, root, StepCalls(step, FS.Read(t, root, step.filepath), o))
  }

  lemma CoderTreeIs(s: GraphState, t: FS.Tree, root: Path, o: Oracles)
    requires ValidRoot(root)
    ensures CoderNode(s, t, root, o).tree == CoderTree(s, t, root, o)
  {
    if Cursor(s).Some? {
      var cs := Cursor(s).value;
      if cs.currentStepIdx < |cs.taskPlan.implementationSteps| {
        var read := FS.Read(t, root, cs.taskPlan.implementationSteps[cs.currentStepIdx].filepath);
        assert RunTools(read.tree, root, []) == read.tree;
      }
    }
  }

  /** Whatever the sub-agent does, the tree a coder execution leaves is confined to the root. */
  lemma CoderTreeConfined(s: GraphState, t: FS.Tree, root: Path, o: Oracles)
    requires ValidRoot(root) && FS.WellFormed(t) && FS.RootClear(t, root)
    ensures var t1 := CoderTree(s, t, root, o);
            FS.Confined(t, t1, root) && FS.WellFormed(t1) && FS.RootClear(t1, root)
  {
    if Cursor(s).Some? && Cursor(s).value.currentStepIdx < |Cursor(s).value.taskPlan.implementationSteps| {
      var cs := Cursor(s).value;
      var step := cs.taskPlan.implementationSteps[cs.currentStepIdx];
      ReadThenToolsConfined(t, root, step.filepath, StepCalls(step, FS.Read(t, root, step.filepath), o));
    } else {
      FS.ConfinedRefl(t, root);
    }
  }

  lemma CoderConfined(s: GraphState, t: FS.Tree, root: Path, o: Oracles)
    requires ValidRoot(root) && FS.WellFormed(t) && FS.RootClear(t, root)
    ensures var t1 := CoderNode(s, t, root, o).tree;
            FS.Confined(t, t1, root) && FS.WellFormed(t1) && FS.RootClear(t1, root)
  {
    CoderTreeIs(s, t, root, o);
    CoderTreeConfined(s, t, root, o);
  }
}
