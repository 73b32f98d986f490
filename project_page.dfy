/**
 * The project page of the front end (`ProjectAgent`): one zip upload, three
 * tabs, the analysis request, the PDF request and the cards rendered from
 * the response.
 */
module ProjectPage {
  import opened Wrappers
  import opened Json
  import opened Http
  import InterviewParser

  /** The three tabs, in the order they are shown. */
  datatype Tab = ProjectReview | ProjectExplain | Interview

  /** The identifier of a tab, sent as the `action` form field. */
  function TabCode(t: Tab): (code: string)
    ensures code in {"PROJECT_REVIEW", "PROJECT_EXPLAIN", "INTERVIEW"}
  {
    match t
    case ProjectReview => "PROJECT_REVIEW"
    case ProjectExplain => "PROJECT_EXPLAIN"
    case Interview => "INTERVIEW"
  }

  /** Distinct tabs send distinct codes. */
  lemma TabCodeInjective(s: Tab, t: Tab)
    ensures TabCode(s) == TabCode(t) <==> s == t
  {
  }

  /** The response field that the card of a tab shows. */
  function TabField(t: Tab): (key: string)
    ensures key in {"review_report", "project_explanation", "interview_questions"}
  {
    match t
    case ProjectReview => "review_report"
    case ProjectExplain => "project_explanation"
    case Interview => "interview_questions"
  }

  /** The form the page posts: the selected file and the active tab's code. */
  datatype Request = Request(file: Upload, action: string)

  /** The name under which the downloaded project report is saved. */
  const ProjectPdfName := "ai_project_report.pdf"

  /** What a card shows inside its frame. */
  datatype CardBody =
    | QaCards(cards: seq<InterviewParser.QaCard>)
    | Readable(text: string)
      /** React refuses an object as a child, and `text.replace` fails on one. */
    | InvalidChild

  datatype Card = Card(title: string, subtitle: Option<string>, body: CardBody)

  /** The body of a card for a truthy field value. */
  function BodyFor(t: Tab, v: Value): (b: CardBody)
    ensures v.Str? && t == Interview ==> b == QaCards(InterviewParser.Parse(v.s))
    ensures v.Str? && t != Interview ==> b == Readable(v.s)
    ensures !v.Str? ==> b == InvalidChild
  {
    match v
    case Str(s) => if t == Interview then QaCards(InterviewParser.Parse(s)) else Readable(s)
    case _ => InvalidChild
  }

  function TitleOf(t: Tab): string {
    match t
    case ProjectReview => "Project Review"
    case ProjectExplain => "Architecture Explanation"
    case Interview => "Interview Questions"
  }

  function SubtitleOf(t: Tab): Option<string> {
    if t == Interview then Some("Clean structured Q&A") else None
  }

  /** The card guarded by `activeTab === t && result.<field>`, as a list of zero or one. */
  function CardIf(active: Tab, t: Tab, result: map<string, Value>): (cards: seq<Card>)
    ensures |cards| <= 1
    ensures cards != [] ==> active == t && cards[0].title == TitleOf(active)
  {
    if active == t && FieldTruthy(result, TabField(t)) then
      [Card(TitleOf(t), SubtitleOf(t), BodyFor(t, result[TabField(t)]))]
    else []
  }

  /** `{result && (...)}`: the three guarded cards in the order they are written. */
  function RenderedCards(active: Tab, result: Option<map<string, Value>>): (cards: seq<Card>)
    ensures result.None? ==> cards == []
    ensures forall k :: 0 <= k < |cards| ==> cards[k].title == TitleOf(active)
  {
    match result
    case None => []
    case Some(r) => CardIf(active, Interview, r) + CardIf(active, ProjectReview, r) + CardIf(active, ProjectExplain, r)
  }

  /**
   * At most one card is shown: the active tab's, exactly when there is a
   * result whose field for that tab is truthy; it shows that field.
   */
  lemma RenderedCardsSelect(active: Tab, result: Option<map<string, Value>>)
    ensures |RenderedCards(active, result)| <= 1
    ensures |RenderedCards(active, result)| == 1 <==>
              result.Some? && FieldTruthy(result.value, TabField(active))
    ensures |RenderedCards(active, result)| == 1 ==>
              RenderedCards(active, result)[0]
              == Card(TitleOf(active), SubtitleOf(active), BodyFor(active, result.value[TabField(active)]))
  {
  }

  /** The state of the page: the four `useState` hooks. */
  class Page {
    var file: Option<Upload>
    var activeTab: Tab
    var result: Option<map<string, Value>>
    var loading: bool

    /** While a run is in flight there is no result shown. */
    predicate Valid()
      reads this
    {
      loading ==> result.None?
    }

    /** The initial state: no file, the project review tab, no result, idle. */
    constructor()
      ensures Valid()
      ensures file == None && activeTab == ProjectReview && result == None && !loading
    {
      file := None;
      activeTab := ProjectReview;
      result := None;
      loading := false;
    }

    /** `disabled={!file || loading}` on the run button. */
    predicate CanRun()
      reads this
      ensures CanRun() ==> file.Some?
      ensures loading ==> !CanRun()
    {
      file.Some? && !loading
    }

    /** The cards the page currently shows. */
    function Cards(): (cards: seq<Card>)
      reads this
      ensures |cards| <= 1
      ensures |cards| == 1 <==> result.Some? && FieldTruthy(result.value, TabField(activeTab))
    {
      RenderedCards(activeTab, result)
    }

    /** `onChange`: the first file of the input, or none when the choice was cancelled. */
    method PickFile(f: Option<Upload>)
      requires Valid()
      modifies this
      ensures Valid()
      ensures file == f
      ensures activeTab == old(activeTab) && result == old(result) && loading == old(loading)
    {
      file := f;
    }

    /** A tab button: only the active tab changes, never the result. */
    method SelectTab(t: Tab)
      requires Valid()
      modifies this
      ensures Valid()
      ensures activeTab == t
      ensures file == old(file) && result == old(result) && loading == old(loading)
    {
      activeTab := t;
    }

    /**
     * The synchronous part of `runAgent`, up to the `await`: without a file
     * nothing happens; with one the page is loading, the old result is
     * cleared and the file is posted with the active tab's code.
     */
    method StartRun() returns (req: Option<Request>)
      requires Valid() && !loading
      modifies this
      ensures Valid()
      ensures req.Some? <==> old(file).Some?
      ensures old(file).None? ==> !loading && result == old(result)
      ensures old(file).Some? ==>
                req.value == Request(old(file).value, TabCode(old(activeTab)))
                && loading && result.None?
      ensures file == old(file) && activeTab == old(activeTab)
    {
      if file.None? {
        return None;
      }
      loading := true;
      result := None;
      req := Some(Request(file.value, TabCode(activeTab)));
    }

    /**
     * The part of `runAgent` after the `await`: a response becomes the
     * result, a failure leaves it cleared, and `finally` ends the loading
     * either way.
     */
    method CompleteRun(outcome: Outcome<map<string, Value>>)
      requires Valid() && loading
      modifies this
      ensures Valid()
      ensures !loading
      ensures outcome.Success? ==> result == Some(outcome.payload)
      ensures outcome.Failure? ==> result.None?
      ensures file == old(file) && activeTab == old(activeTab)
    {
      if outcome.Success? {
        result := Some(outcome.payload);
      }
      loading := false;
    }

    /**
     * `downloadPDF`: without a file nothing is sent; otherwise the same
     * file and the active tab's code. It changes no state.
     */
    function PdfRequest(): (req: Option<Request>)
      reads this
      ensures req.Some? <==> file.Some?
      ensures req.Some? ==> req.value.file == file.value && req.value.action == TabCode(activeTab)
    {
      if file.None? then None else Some(Request(file.value, TabCode(activeTab)))
    }
  }

  /** The download that follows a PDF response: saved as `ai_project_report.pdf`, nothing on failure. */
  function SavedPdf<T>(outcome: Outcome<T>): (name: Option<string>)
    ensures name.Some? <==> outcome.Success?
    ensures name.Some? ==> name.value == ProjectPdfName
  {
    if outcome.Success? then Some(ProjectPdfName) else None
  }

  /**
   * A whole run: a failed call leaves no result and no card; a successful
   * one shows the card of the tab that was active when it started, if the
   * response's field for it is truthy.
   */
  method RunThenComplete(p: Page, outcome: Outcome<map<string, Value>>)
    requires p.Valid() && p.CanRun()
    modifies p
    ensures p.Valid() && !p.loading
    ensures outcome.Failure? ==> p.result.None? && p.Cards() == []
    ensures outcome.Success? ==>
              p.result == Some(outcome.payload)
              && p.Cards() == RenderedCards(old(p.activeTab), Some(outcome.payload))
              && (|p.Cards()| == 1 <==> FieldTruthy(outcome.payload, TabField(old(p.activeTab))))
    ensures p.file == old(p.file) && p.activeTab == old(p.activeTab)
  {
    var req := p.StartRun();
    p.CompleteRun(outcome);
  }
}
