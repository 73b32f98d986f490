/**
 * The two HTTP endpoints of the back end: `/single-review` runs the
 * single-file pipeline, `/project-review` extracts the zip, runs the project
 * graph, picks the text to return and puts it under the key the action asks
 * for. Python's `str()` of a value is a parameter.
 */
module BackendApi {
  import opened Wrappers
  import opened Json
  import ProjectArchive
  import ProjectGraph
  import CodeGraph

  /** The value `action` takes when the request names none. */
  const DefaultAction := "PROJECT_REVIEW"

  /**
   * How `project_review` receives `action`: a plain `str` parameter with a
   * default is bound from the query string, so a form field of the same
   * name is never read, and a request without `?action=` gets the default.
   */
  function BoundAction(query: map<string, string>, form: map<string, string>): (action: string)
    ensures "action" in query ==> action == query["action"]
    ensures "action" !in query ==> action == DefaultAction
  {
    if "action" in query then query["action"] else DefaultAction
  }

  /**
   * The form field does not matter to the bound action. This follows from
   * the definition alone; it records the binding that makes the project
   * page's `action` go unread.
   */
  lemma BoundActionIgnoresForm(query: map<string, string>, form: map<string, string>, other: map<string, string>)
    ensures BoundAction(query, form) == BoundAction(query, other)
  {
  }

  /** Python's `str()` of a value. */
  type Repr = Value -> string

  /**
   * The text taken from the graph result: its `"result"` entry if it has
   * one, else its `"final"` entry, else -- and for a result that is not a
   * dictionary -- the stringified result.
   */
  function NormalizeText(graphResult: Value, repr: Repr): (text: Value)
    ensures graphResult.Dict? && "result" in graphResult.entries ==> text == graphResult.entries["result"]
    ensures graphResult.Dict? && "result" !in graphResult.entries && "final" in graphResult.entries ==>
              text == graphResult.entries["final"]
    ensures !graphResult.Dict? || ("result" !in graphResult.entries && "final" !in graphResult.entries) ==>
              text == Str(repr(graphResult))
  {
    match graphResult
    case Dict(m) =>
      if "result" in m then m["result"]
      else if "final" in m then m["final"]
      else Str(repr(graphResult))
    case _ => Str(repr(graphResult))
  }

  /** The key under which each known action's text is returned. */
  function ResponseKey(action: string): (key: Option<string>)
    ensures key.Some? <==> action in ProjectGraph.Codes
  {
    if action == ProjectGraph.ReviewCode then Some("review_report")
    else if action == ProjectGraph.ExplainCode then Some("project_explanation")
    else if action == ProjectGraph.InterviewCode then Some("interview_questions")
    else None
  }

  /** The response: one key holding the text for a known action, one error entry otherwise. */
  function ResponseFor(action: string, text: Value): (r: map<string, Value>)
    ensures |r| == 1
    ensures ResponseKey(action).Some? ==> r == map[ResponseKey(action).value := text]
    ensures ResponseKey(action).None? ==> r == map["error" := Str("Unknown action")]
  {
    match ResponseKey(action)
    case Some(key) => map[key := text]
    case None => map["error" := Str("Unknown action")]
  }

  /** Distinct actions answer under distinct keys, and none of them is `"error"`. */
  lemma ResponseKeysDistinct(a: string, b: string)
    requires a in ProjectGraph.Codes && b in ProjectGraph.Codes
    ensures ResponseKey(a).value != "error"
    ensures ResponseKey(a) == ResponseKey(b) <==> a == b
  {
  }

  /** The graph's final state as the dictionary it returns: the reports appear once written. */
  function StateValue(s: ProjectGraph.ProjectState): (v: Value)
    ensures v.Dict?
    ensures v.entries.Keys <= {"project_files", "user_request", "review_report", "project_explanation", "interview_questions"}
  {
    var files := map name | name in s.projectFiles :: Str(s.projectFiles[name]);
    var m0 := map["project_files" := Dict(files), "user_request" := Str(s.userRequest)];
    var m1 := if s.reviewReport.Some? then m0["review_report" := Str(s.reviewReport.value)] else m0;
    var m2 := if s.projectExplanation.Some? then m1["project_explanation" := Str(s.projectExplanation.value)] else m1;
    Dict(if s.interviewQuestions.Some? then m2["interview_questions" := Str(s.interviewQuestions.value)] else m2)
  }

  /** No graph state has a `"result"` or `"final"` entry, so its text is always the stringified state. */
  lemma StateTextIsRepr(s: ProjectGraph.ProjectState, repr: Repr)
    ensures NormalizeText(StateValue(s), repr) == Str(repr(StateValue(s)))
  {
    var v := StateValue(s);
    assert "result" !in v.entries && "final" !in v.entries;
  }

  /**
   * `project_review`: `names` is the zip's name list and `read` the decoded
   * content of an entry. A failure of the graph run is the endpoint's
   * failure.
   */
  function ProjectReview(names: seq<string>, read: string -> string, action: string,
                         llm: ProjectGraph.Llm, repr: Repr): (r: Result<map<string, Value>, string>)
    ensures r.Ok? ==> |r.value| == 1
    ensures r.Ok? && action in ProjectGraph.Codes ==> r.value.Keys == {ResponseKey(action).value}
  {
    var files := ProjectArchive.ProjectFiles(names, read);
    match ProjectGraph.Invoke(ProjectGraph.InitialState(files, action), llm)
    case Err(e) => Err(e)
    case Ok(run) => Ok(ResponseFor(action, NormalizeText(StateValue(run.final), repr)))
  }

  /**
   * The endpoint answers exactly the three known actions, each with its one
   * key holding the stringified final state, which carries the requested
   * report. Any other action fails inside the graph, so the
   * `"Unknown action"` answer is never sent.
   */
  lemma ProjectReviewAnswers(names: seq<string>, read: string -> string, action: string,
                             llm: ProjectGraph.Llm, repr: Repr)
    ensures ProjectReview(names, read, action, llm, repr).Ok? <==> action in ProjectGraph.Codes
    ensures ProjectReview(names, read, action, llm, repr).Ok? ==>
              var files := ProjectArchive.ProjectFiles(names, read);
              var final := ProjectGraph.Invoke(ProjectGraph.InitialState(files, action), llm).value.final;
              ProjectReview(names, read, action, llm, repr).value
                == map[ResponseKey(action).value := Str(repr(StateValue(final)))]
              && "error" !in ProjectReview(names, read, action, llm, repr).value
              && ProjectGraph.Report(final, action) == Some(llm(ProjectGraph.PromptOf(action), files))
  {
    var files := ProjectArchive.ProjectFiles(names, read);
    var s := ProjectGraph.InitialState(files, action);
    ProjectGraph.InvokeRoutes(s, llm);
    if action in ProjectGraph.Codes {
      StateTextIsRepr(ProjectGraph.Invoke(s, llm).value.final, repr);
      ResponseKeysDistinct(action, action);
    }
  }

  /**
   * `single_review`: the decoded upload goes into the pipeline with the
   * language fixed to `"python"`, whatever the file's name, and the
   * pipeline's dictionary is returned as it is.
   */
  method SingleReview(rawCode: string, llm: CodeGraph.Llm) returns (result: map<string, string>)
    ensures result == CodeGraph.PipelineResult(rawCode, "python", llm)
    ensures result["language"] == "python" && result["raw_code"] == rawCode
  {
    result := CodeGraph.Invoke(rawCode, "python", llm);
  }
}
