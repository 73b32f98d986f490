/**
 * The project analysis graph: a router node whose condition is the
 * request code, one analysis node per code, and an edge from each analysis
 * node to the end. The language model is a parameter: it maps a prompt
 * file and the project files to the reply text.
 */
module ProjectGraph {
  import opened Wrappers

  /** The graph state; the three reports are absent until a node writes them. */
  datatype ProjectState = ProjectState(
    projectFiles: map<string, string>,
    userRequest: string,
    reviewReport: Option<string>,
    projectExplanation: Option<string>,
    interviewQuestions: Option<string>)

  /** The keys a node returns; the graph merges the present ones into the state. */
  datatype Update = Update(
    reviewReport: Option<string>,
    projectExplanation: Option<string>,
    interviewQuestions: Option<string>)

  /** The model call: prompt file and project files to reply text. */
  type Llm = (string, map<string, string>) -> string

  const RouterName := "router"
  const ReviewCode := "PROJECT_REVIEW"
  const ExplainCode := "PROJECT_EXPLAIN"
  const InterviewCode := "INTERVIEW"
  /** The name of the graph's end node. */
  const End := "__end__"
  /** The graph library's default bound on the number of steps of one run. */
  const RecursionLimit := 25

  const Codes := {ReviewCode, ExplainCode, InterviewCode}

  /** The conditional edges out of the router: each code leads to the node of the same name. */
  const RouteTable: map<string, string> :=
    map[ReviewCode := ReviewCode, ExplainCode := ExplainCode, InterviewCode := InterviewCode]

  /** The prompt file each analysis node formats. */
  function PromptOf(code: string): string {
    if code == ReviewCode then "prompts/project_review.txt"
    else if code == ExplainCode then "prompts/project_explain.txt"
    else "prompts/interview_questions.txt"
  }

  /** The report a code asks for, as it stands in a state. */
  function Report(s: ProjectState, code: string): Option<string> {
    if code == ReviewCode then s.reviewReport
    else if code == ExplainCode then s.projectExplanation
    else s.interviewQuestions
  }

  /** Merging an update: every key the node returned replaces the state's. */
  function Merge(s: ProjectState, u: Update): ProjectState {
    s.(reviewReport := if u.reviewReport.Some? then u.reviewReport else s.reviewReport,
       projectExplanation := if u.projectExplanation.Some? then u.projectExplanation else s.projectExplanation,
       interviewQuestions := if u.interviewQuestions.Some? then u.interviewQuestions else s.interviewQuestions)
  }

  /** `router_node` returns no keys, so it leaves the state as it is. */
  function RouterNode(s: ProjectState): (u: Update)
    ensures Merge(s, u) == s
  {
    Update(None, None, None)
  }

  /** `route_condition`: the request code itself, which has an edge exactly when it is a known code. */
  function RouteCondition(s: ProjectState): (code: string)
    ensures code in RouteTable <==> s.userRequest in Codes
    ensures code in RouteTable ==> RouteTable[code] == s.userRequest
  {
    s.userRequest
  }

  /**
   * The analysis node for a code: it returns only its own report, the
   * model's reply to its prompt over the project files.
   */
  function AnalysisNode(code: string, s: ProjectState, llm: Llm): (u: Update)
    requires code in Codes
    ensures Report(Merge(s, u), code) == Some(llm(PromptOf(code), s.projectFiles))
    ensures forall c :: c in Codes && c != code ==> Report(Merge(s, u), c) == Report(s, c)
  {
    var reply := Some(llm(PromptOf(code), s.projectFiles));
    if code == ReviewCode then Update(reply, None, None)
    else if code == ExplainCode then Update(None, reply, None)
    else Update(None, None, reply)
  }

  /**
   * One step: run the node, merge what it returns, and follow its edge. A
   * code the router's table does not hold has no edge, which the graph
   * library reports as an error.
   */
  function Step(node: string, s: ProjectState, llm: Llm): (r: Result<(ProjectState, string), string>)
    ensures node == RouterName ==> (r.Ok? <==> s.userRequest in Codes)
    ensures node == RouterName && r.Ok? ==> r.value == (s, s.userRequest)
    ensures node in Codes ==> r.Ok? && r.value.1 == End
    ensures node in Codes ==> Report(r.value.0, node) == Some(llm(PromptOf(node), s.projectFiles))
    ensures node != RouterName && node !in Codes ==> r.Err?
  {
    if node == RouterName then
      var t := Merge(s, RouterNode(s));
      var code := RouteCondition(t);
      if code in RouteTable then Ok((t, RouteTable[code])) else Err("no edge for " + code)
    else if node in Codes then
      Ok((Merge(s, AnalysisNode(node, s, llm)), End))
    else Err("unknown node " + node)
  }

  /** The final state of a run and the nodes it ran, in order. */
  datatype Run = Run(final: ProjectState, visited: seq<string>)

  /** Steps from `node` until the end, failing once `budget` steps are used up. */
  function Execute(node: string, s: ProjectState, llm: Llm, budget: nat): (r: Result<Run, string>)
    ensures node == End ==> r == Ok(Run(s, []))
    ensures r.Ok? ==> |r.value.visited| <= budget
    ensures r.Ok? && node != End ==> |r.value.visited| > 0 && r.value.visited[0] == node
    decreases budget
  {
    if node == End then Ok(Run(s, []))
    else if budget == 0 then Err("recursion limit reached")
    else
      match Step(node, s, llm)
      case Err(e) => Err(e)
      case Ok((t, next)) =>
        match Execute(next, t, llm, budget - 1)
        case Err(e) => Err(e)
        case Ok(run) => Ok(Run(run.final, [node] + run.visited))
  }

  /** `FinalProjectGraph.invoke(state)`: a run from the entry point, the router. */
  function Invoke(s: ProjectState, llm: Llm): (r: Result<Run, string>)
    ensures r.Ok? ==> 0 < |r.value.visited| <= RecursionLimit && r.value.visited[0] == RouterName
  {
    Execute(RouterName, s, llm, RecursionLimit)
  }

  /**
   * A run succeeds exactly when the request is one of the three codes. It
   * then visits the router and the node named by the code, adds that
   * node's report and changes nothing else.
   */
  lemma InvokeRoutes(s: ProjectState, llm: Llm)
    ensures Invoke(s, llm).Ok? <==> s.userRequest in Codes
    ensures Invoke(s, llm).Ok? ==>
              var t := Invoke(s, llm).value.final;
              Invoke(s, llm).value.visited == [RouterName, s.userRequest]
              && t.projectFiles == s.projectFiles && t.userRequest == s.userRequest
              && Report(t, s.userRequest) == Some(llm(PromptOf(s.userRequest), s.projectFiles))
              && forall c :: c in Codes && c != s.userRequest ==> Report(t, c) == Report(s, c)
  {
    var code := s.userRequest;
    if code in Codes {
      assert Step(RouterName, s, llm) == Ok((s, code));
      var t := Merge(s, AnalysisNode(code, s, llm));
      assert Step(code, s, llm) == Ok((t, End));
      assert code != End && code != RouterName;
      assert Execute(End, t, llm, RecursionLimit - 2) == Ok(Run(t, []));
      assert [code] + [] == [code];
      assert Execute(code, s, llm, RecursionLimit - 1) == Ok(Run(t, [code]));
      assert [RouterName] + [code] == [RouterName, code];
    } else {
      assert Step(RouterName, s, llm).Err?;
    }
  }

  /** The state the back end starts a run from: the files and the code, no report yet. */
  function InitialState(files: map<string, string>, action: string): (s: ProjectState)
    ensures forall c :: c in Codes ==> Report(s, c).None?
  {
    ProjectState(files, action, None, None, None)
  }

  /**
   * From the back end's initial state a run with a known code ends with
   * exactly one report, the one the code asks for.
   */
  lemma ExactlyOneReport(files: map<string, string>, action: string, llm: Llm)
    requires action in Codes
    ensures Invoke(InitialState(files, action), llm).Ok?
    ensures forall c :: c in Codes ==>
              (Report(Invoke(InitialState(files, action), llm).value.final, c).Some? <==> c == action)
  {
    InvokeRoutes(InitialState(files, action), llm);
  }
}
