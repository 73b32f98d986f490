/**
 * How the two front-end pages read what the back end sends. The response
 * keys the back end writes are the fields the pages look up. The project
 * page sends its tab's code as a form field, but the endpoint reads
 * `action` from the query string, so as written every project request is
 * answered for the default action.
 */
module EndToEnd {
  import opened Wrappers
  import opened Json
  import ProjectPage
  import SingleFilePage
  import BackendApi
  import ProjectGraph
  import CodeGraph

  /** Each tab's code, once it reaches `action`, is answered under the field that tab's card reads. */
  lemma TabFieldIsResponseKey(t: ProjectPage.Tab)
    ensures ProjectPage.TabCode(t) in ProjectGraph.Codes
    ensures BackendApi.ResponseKey(ProjectPage.TabCode(t)) == Some(ProjectPage.TabField(t))
  {
  }

  /**
   * As written: the page posts `{file, action: TabCode(t)}` as a form and
   * no query string, so the endpoint binds the default action whatever the
   * tab. The reply then carries only `review_report`, and the explanation
   * and interview tabs never show a card.
   */
  lemma ProjectPageAsWritten(names: seq<string>, read: string -> string, t: ProjectPage.Tab,
                             llm: ProjectGraph.Llm, repr: BackendApi.Repr)
    ensures BackendApi.BoundAction(map[], map["action" := ProjectPage.TabCode(t)]) == BackendApi.DefaultAction
    ensures BackendApi.ProjectReview(names, read, BackendApi.DefaultAction, llm, repr).Ok?
    ensures var response := BackendApi.ProjectReview(names, read, BackendApi.DefaultAction, llm, repr).value;
            response.Keys == {"review_report"}
            && ProjectPage.RenderedCards(ProjectPage.ProjectExplain, Some(response)) == []
            && ProjectPage.RenderedCards(ProjectPage.Interview, Some(response)) == []
  {
    BackendApi.ProjectReviewAnswers(names, read, BackendApi.DefaultAction, llm, repr);
    var response := BackendApi.ProjectReview(names, read, BackendApi.DefaultAction, llm, repr).value;
    ProjectPage.RenderedCardsSelect(ProjectPage.ProjectExplain, Some(response));
    ProjectPage.RenderedCardsSelect(ProjectPage.Interview, Some(response));
  }

  /**
   * With `action` read from the form field (`action: str = Form(...)`), a
   * project request sent from a tab is answered, and the page then shows
   * that tab's card -- with the stringified final state as its text --
   * exactly when that text is not empty.
   */
  lemma ProjectPageShowsAnswer(names: seq<string>, read: string -> string, t: ProjectPage.Tab,
                               llm: ProjectGraph.Llm, repr: BackendApi.Repr)
    ensures BackendApi.ProjectReview(names, read, ProjectPage.TabCode(t), llm, repr).Ok?
    ensures var response := BackendApi.ProjectReview(names, read, ProjectPage.TabCode(t), llm, repr).value;
            var text := response[ProjectPage.TabField(t)];
            text.Str?
            && (|ProjectPage.RenderedCards(t, Some(response))| == 1 <==> text.s != "")
  {
    var code := ProjectPage.TabCode(t);
    TabFieldIsResponseKey(t);
    BackendApi.ProjectReviewAnswers(names, read, code, llm, repr);
    var response := BackendApi.ProjectReview(names, read, code, llm, repr).value;
    ProjectPage.RenderedCardsSelect(t, Some(response));
  }

  /** The pipeline's dictionary as the JSON object the page receives. */
  function AsJson(m: map<string, string>): (v: map<string, Value>)
    ensures v.Keys == m.Keys
    ensures forall k :: k in m ==> v[k] == Str(m[k])
  {
    map k | k in m :: Str(m[k])
  }

  /** After a single-file review the page's three sections show the review, the tests and the rewrite. */
  lemma SingleFilePageShowsPipeline(raw: string, llm: CodeGraph.Llm)
    ensures var result := AsJson(CodeGraph.PipelineResult(raw, "python", llm));
            var review := CodeGraph.ReviewerReply(llm, raw);
            var refactored := CodeGraph.RefactorReply(llm, raw, review);
            var sections := SingleFilePage.Sections(Some(result));
            sections[0].content == Str(review)
            && sections[1].content == Str(CodeGraph.TestReply(llm, refactored))
            && sections[2].content == Str(refactored)
  {
  }
}
