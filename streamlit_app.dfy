/**
 * The Streamlit front end: the language guessed from an upload's file name,
 * the action labels of the project mode, and what each mode shows of a
 * graph result.
 */
module StreamlitApp {
  import opened Wrappers
  import opened Strings
  import ProjectGraph
  import CodeGraph

  /** The extension table; any other extension is `"text"`. */
  const Languages: map<string, string> :=
    map["py" := "python", "js" := "javascript", "ts" := "typescript", "java" := "java",
        "cpp" := "cpp", "c" := "c", "cs" := "csharp", "go" := "go", "rb" := "ruby",
        "php" := "php", "html" := "html", "css" := "css"]

  /** `mapping.get(ext, "text")`. */
  function LanguageOf(ext: string): (lang: string)
    ensures ext in Languages ==> lang == Languages[ext]
    ensures ext !in Languages ==> lang == "text"
  {
    if ext in Languages then Languages[ext] else "text"
  }

  /**
   * `detect_language`: the table entry of the lower-cased last piece of the
   * name split on `"."`. It is total: the answer is always one of the
   * table's languages or `"text"`.
   */
  function DetectLanguage(filename: string): (lang: string)
    ensures lang in Languages.Values || lang == "text"
  {
    LanguageOf(Lower(Last(Split(filename, "."))))
  }

  /**
   * The extension is the text after the last `"."` -- the whole name when
   * there is none -- lower-cased.
   */
  lemma DetectLanguageReadsLastExtension(filename: string)
    ensures DetectLanguage(filename) == LanguageOf(AfterLast(Lower(filename), '.'))
    ensures '.' !in filename ==> DetectLanguage(filename) == LanguageOf(Lower(filename))
  {
    LastPieceIsAfterLast(filename, '.');
    LowerAfterLastDot(filename);
    if '.' !in filename {
      AfterLastWithoutSeparator(filename, '.');
    }
  }

  /** The extension's case does not matter: names equal up to case get the same language. */
  lemma DetectLanguageIgnoresCase(a: string, b: string)
    requires Lower(a) == Lower(b)
    ensures DetectLanguage(a) == DetectLanguage(b)
  {
    DetectLanguageReadsLastExtension(a);
    DetectLanguageReadsLastExtension(b);
  }

  /** Lower-casing never produces a period from anything else. */
  lemma LowerKeepsNoPeriod(ext: string)
    requires '.' !in ext
    ensures '.' !in Lower(ext)
  {
    var l := Lower(ext);
    forall k | 0 <= k < |l|
      ensures l[k] != '.'
    {
      assert l[k] == LowerChar(ext[k]);
    }
  }

  /** The language of `stem.ext`, for an `ext` without a period, is read from `ext` alone. */
  lemma ExtensionDecides(stem: string, ext: string)
    requires '.' !in ext
    ensures DetectLanguage(stem + "." + ext) == LanguageOf(Lower(ext))
  {
    var name := stem + "." + ext;
    var l := Lower(name);
    var e := Lower(ext);
    assert l[|l| - |e|..] == e by {
      forall k | 0 <= k < |e|
        ensures l[|l| - |e|..][k] == e[k]
      {
        assert name[|stem| + 1 + k] == ext[k];
      }
    }
    assert l[|l| - |e| - 1] == '.' by {
      assert name[|stem|] == '.';
    }
    LowerKeepsNoPeriod(ext);
    AfterLastUnique(l, '.', e);
    DetectLanguageReadsLastExtension(name);
  }

  /** A name ending in `".py"` is Python. */
  lemma PythonExtension(stem: string)
    ensures DetectLanguage(stem + ".py") == "python"
  {
    assert stem + ".py" == stem + "." + "py";
    ExtensionDecides(stem, "py");
    assert Lower("py") == "py";
    assert LanguageOf("py") == "python";
  }

  /** Whatever the stem, `".PY"` is Python as well. */
  lemma PythonInAnyCase(stem: string)
    ensures DetectLanguage(stem + ".PY") == "python"
  {
    assert stem + ".PY" == stem + "." + "PY";
    ExtensionDecides(stem, "PY");
    LowerPY();
    assert LanguageOf("py") == "python";
  }

  /** `"PY".lower()` is `"py"`. */
  lemma LowerPY()
    ensures Lower("PY") == "py"
  {
    var l := Lower("PY");
    assert l[0] == LowerChar('P') == 'p';
    assert l[1] == LowerChar('Y') == 'y';
  }

  /** Only the last extension counts: a `.tar.gz` archive is text. */
  lemma LastExtensionOnly(stem: string)
    ensures DetectLanguage(stem + ".tar.gz") == "text"
  {
    assert stem + ".tar.gz" == (stem + ".tar") + "." + "gz";
    ExtensionDecides(stem + ".tar", "gz");
    assert Lower("gz") == "gz";
    assert "gz" !in Languages;
  }

  /** The three labels of the action select box, in order. */
  const ActionLabels := ["Project Review", "Project Explanation", "Interview Questions"]

  /** `request_map`. */
  const RequestMap: map<string, string> :=
    map["Project Review" := "PROJECT_REVIEW", "Project Explanation" := "PROJECT_EXPLAIN",
        "Interview Questions" := "INTERVIEW"]

  /**
   * Every choice of the select box has a code, the three codes are distinct,
   * and they are exactly the codes the project graph routes.
   */
  lemma RequestMapCoversLabels()
    ensures forall i :: 0 <= i < |ActionLabels| ==> ActionLabels[i] in RequestMap
    ensures forall i, j :: 0 <= i < j < |ActionLabels| ==>
              RequestMap[ActionLabels[i]] != RequestMap[ActionLabels[j]]
    ensures RequestMap.Values == ProjectGraph.Codes
  {
    assert RequestMap.Values == {"PROJECT_REVIEW", "PROJECT_EXPLAIN", "INTERVIEW"} by {
      assert RequestMap["Project Review"] == "PROJECT_REVIEW";
      assert RequestMap["Project Explanation"] == "PROJECT_EXPLAIN";
      assert RequestMap["Interview Questions"] == "INTERVIEW";
    }
  }

  /** So a project run started from any choice succeeds. */
  lemma ProjectRunSucceeds(files: map<string, string>, choice: string, llm: ProjectGraph.Llm)
    requires choice in RequestMap
    ensures ProjectGraph.Invoke(ProjectGraph.InitialState(files, RequestMap[choice]), llm).Ok?
  {
    RequestMapCoversLabels();
    ProjectGraph.ExactlyOneReport(files, RequestMap[choice], llm);
  }

  /** Python truthiness of `r.get(key)`: present and non-empty. */
  predicate Truthy(v: Option<string>) {
    v.Some? && v.value != ""
  }

  /** The three reports of the project display, in the order they are shown. */
  datatype Report = ReviewReport | ProjectExplanation | InterviewQuestions

  /** The `st.subheader` written above each report. */
  function Heading(k: Report): string {
    match k
    case ReviewReport => "\U{1F4CB} Project Review Report"
    case ProjectExplanation => "\U{1F4D8} Project Explanation"
    case InterviewQuestions => "\U{1F3AF} Interview Questions"
  }

  /** Distinct reports are shown under distinct headings. */
  lemma HeadingsAreDistinct(a: Report, b: Report)
    ensures Heading(a) == Heading(b) <==> a == b
  {
  }

  /** The place of a report in the display. */
  function Rank(k: Report): nat {
    match k
    case ReviewReport => 0
    case ProjectExplanation => 1
    case InterviewQuestions => 2
  }

  /** `r.get(key)` for the key of a report. */
  function ReportOf(r: ProjectGraph.ProjectState, k: Report): Option<string> {
    match k
    case ReviewReport => r.reviewReport
    case ProjectExplanation => r.projectExplanation
    case InterviewQuestions => r.interviewQuestions
  }

  /** One block of the display: `st.subheader(Heading(report))` above `st.markdown(text)`. */
  datatype Shown = Shown(report: Report, text: string)

  /** `if r.get(key): ...`: the block of one report, as a list of zero or one. */
  function ShowIf(r: ProjectGraph.ProjectState, k: Report): (shown: seq<Shown>)
    ensures |shown| <= 1
    ensures shown != [] <==> Truthy(ReportOf(r, k))
    ensures shown != [] ==> shown[0] == Shown(k, ReportOf(r, k).value)
  {
    if Truthy(ReportOf(r, k)) then [Shown(k, ReportOf(r, k).value)] else []
  }

  /**
   * The project result display: exactly the truthy reports, each once under
   * its own heading, in the fixed order review, explanation, questions.
   */
  function ProjectDisplay(r: ProjectGraph.ProjectState): (shown: seq<Shown>)
    ensures |shown| <= 3
    ensures forall i :: 0 <= i < |shown| ==>
              Truthy(ReportOf(r, shown[i].report)) && shown[i].text == ReportOf(r, shown[i].report).value
    ensures forall i, j :: 0 <= i < j < |shown| ==> Rank(shown[i].report) < Rank(shown[j].report)
    ensures forall k: Report :: Truthy(ReportOf(r, k)) ==> Shown(k, ReportOf(r, k).value) in shown
  {
    var a, b, c := ShowIf(r, ReviewReport), ShowIf(r, ProjectExplanation), ShowIf(r, InterviewQuestions);
    DisplayParts(r, a, b, c);
    a + b + c
  }

  /** The three blocks, one after another, keep each report's text and the order of the ranks. */
  lemma DisplayParts(r: ProjectGraph.ProjectState, a: seq<Shown>, b: seq<Shown>, c: seq<Shown>)
    requires a == ShowIf(r, ReviewReport) && b == ShowIf(r, ProjectExplanation) && c == ShowIf(r, InterviewQuestions)
    ensures forall i :: 0 <= i < |a + b + c| ==>
              Truthy(ReportOf(r, (a + b + c)[i].report))
              && (a + b + c)[i].text == ReportOf(r, (a + b + c)[i].report).value
              && Rank((a + b + c)[i].report) == (if i < |a| then 0 else if i < |a| + |b| then 1 else 2)
    ensures forall k: Report :: Truthy(ReportOf(r, k)) ==> Shown(k, ReportOf(r, k).value) in a + b + c
  {
    var s := a + b + c;
    forall i | 0 <= i < |s|
      ensures Truthy(ReportOf(r, s[i].report)) && s[i].text == ReportOf(r, s[i].report).value
      ensures Rank(s[i].report) == (if i < |a| then 0 else if i < |a| + |b| then 1 else 2)
    {
      if i < |a| {
        assert s[i] == a[i];
      } else if i < |a| + |b| {
        assert s[i] == b[i - |a|];
      } else {
        assert s[i] == c[i - |a| - |b|];
      }
    }
    forall k: Report | Truthy(ReportOf(r, k))
      ensures Shown(k, ReportOf(r, k).value) in s
    {
      match k
      case ReviewReport => assert s[0] == a[0];
      case ProjectExplanation => assert s[|a|] == b[0];
      case InterviewQuestions => assert s[|a| + |b|] == c[0];
    }
  }

  /**
   * The display does not depend on the selected action; after a run from a
   * choice it shows the one report that run wrote, when the reply is not
   * empty, and nothing otherwise.
   */
  lemma ProjectDisplayShowsTheReport(files: map<string, string>, choice: string, llm: ProjectGraph.Llm)
    requires choice in RequestMap
    ensures var s := ProjectGraph.InitialState(files, RequestMap[choice]);
            var final := ProjectGraph.Invoke(s, llm).value.final;
            var reply := llm(ProjectGraph.PromptOf(RequestMap[choice]), files);
            (reply != "" ==> |ProjectDisplay(final)| == 1 && ProjectDisplay(final)[0].text == reply)
            && (reply == "" ==> ProjectDisplay(final) == [])
  {
    var code := RequestMap[choice];
    RequestMapCoversLabels();
    var s := ProjectGraph.InitialState(files, code);
    ProjectGraph.InvokeRoutes(s, llm);
    ProjectGraph.ExactlyOneReport(files, code, llm);
  }

  /** Only the reports matter to the display, not the request code or the files. */
  lemma ProjectDisplayIgnoresRequest(r: ProjectGraph.ProjectState, code: string)
    ensures ProjectDisplay(r.(userRequest := code)) == ProjectDisplay(r)
  {
  }

  /** The single-file display: the review, the tests and the refactored code, in that order. */
  datatype SingleView = SingleView(review: string, tests: string, refactored: string)

  /** The single-file display as written: it reads `"review_report"`, a key a raising subscript needs. */
  function SingleDisplayAsWritten(r: map<string, string>): (view: Result<SingleView, string>)
    ensures view.Ok? <==> "review_report" in r && "test_report" in r && "refactored_code" in r
  {
    if "review_report" !in r then Err("KeyError: 'review_report'")
    else if "test_report" !in r then Err("KeyError: 'test_report'")
    else if "refactored_code" !in r then Err("KeyError: 'refactored_code'")
    else Ok(SingleView(r["review_report"], r["test_report"], r["refactored_code"]))
  }

  /** No pipeline result has `"review_report"`, so the display as written fails on every run. */
  lemma SingleDisplayAsWrittenFails(raw: string, lang: string, llm: CodeGraph.Llm)
    ensures SingleDisplayAsWritten(CodeGraph.PipelineResult(raw, lang, llm)).Err?
  {
    assert "review_report" !in CodeGraph.PipelineResult(raw, lang, llm);
  }

  /** The single-file display reading the key the pipeline writes, `"review_code"`. */
  function SingleDisplay(r: map<string, string>): (view: Result<SingleView, string>)
    ensures view.Ok? <==> "review_code" in r && "test_report" in r && "refactored_code" in r
  {
    if "review_code" !in r then Err("KeyError: 'review_code'")
    else if "test_report" !in r then Err("KeyError: 'test_report'")
    else if "refactored_code" !in r then Err("KeyError: 'refactored_code'")
    else Ok(SingleView(r["review_code"], r["test_report"], r["refactored_code"]))
  }

  /** With that key every pipeline result displays, showing the review, the tests and the rewrite. */
  lemma SingleDisplayShowsPipeline(raw: string, lang: string, llm: CodeGraph.Llm)
    ensures var r := CodeGraph.PipelineResult(raw, lang, llm);
            var review := CodeGraph.ReviewerReply(llm, raw);
            var refactored := CodeGraph.RefactorReply(llm, raw, review);
            SingleDisplay(r) == Ok(SingleView(review, CodeGraph.TestReply(llm, refactored), refactored))
  {
  }
}
