/**
 * The single-file page of the front end (`SingleFile`): one uploaded source
 * file, the review request, the PDF download and the three sections rendered
 * from the response.
 */
module SingleFilePage {
  import opened Wrappers
  import opened Json
  import opened Http

  /** The name under which the downloaded review report is saved. */
  const ReviewPdfName := "ai_code_review_report.pdf"

  /** How a section shows its field: wrapped text, or a preformatted code block. */
  datatype Presentation = ReadableBlock | CodeBlock

  datatype Section = Section(title: string, subtitle: string, presentation: Presentation, content: Value)

  /**
   * `{result && (...)}`: nothing without a result, otherwise the three
   * sections in order, each showing its field (a missing field renders as
   * nothing).
   */
  function Sections(result: Option<map<string, Value>>): (sections: seq<Section>)
    ensures result.None? ==> sections == []
    ensures result.Some? ==> |sections| == 3
    ensures result.Some? ==>
              sections[0].title == "Review Report" && sections[0].content == Field(result.value, "review_code")
              && sections[1].title == "Test Suggestions" && sections[1].content == Field(result.value, "test_report")
              && sections[2].title == "Refactored Code" && sections[2].content == Field(result.value, "refactored_code")
    ensures result.Some? ==>
              sections[0].presentation == ReadableBlock && sections[1].presentation == ReadableBlock
              && sections[2].presentation == CodeBlock
  {
    match result
    case None => []
    case Some(r) =>
      [ Section("Review Report", "Issues, improvements, and best practices", ReadableBlock, Field(r, "review_code")),
        Section("Test Suggestions", "Recommended test cases & edge conditions", ReadableBlock, Field(r, "test_report")),
        Section("Refactored Code", "Improved, cleaner implementation", CodeBlock, Field(r, "refactored_code")) ]
  }

  /** The state of the page: the four `useState` hooks. */
  class Page {
    var file: Option<Upload>
    var result: Option<map<string, Value>>
    var loading: bool
    var downloading: bool

    /** While a review is in flight there is no result shown. */
    predicate Valid()
      reads this
    {
      loading ==> result.None?
    }

    /** The initial state: no file, no result, neither loading nor downloading. */
    constructor()
      ensures Valid()
      ensures file == None && result == None && !loading && !downloading
    {
      file := None;
      result := None;
      loading := false;
      downloading := false;
    }

    /** `disabled={!file || loading}` on the review button. */
    predicate CanReview()
      reads this
      ensures CanReview() ==> file.Some?
      ensures loading ==> !CanReview()
    {
      file.Some? && !loading
    }

    /** `disabled={!result || downloading}` on the download button. */
    predicate CanDownload()
      reads this
      ensures CanDownload() ==> result.Some?
      ensures downloading ==> !CanDownload()
    {
      result.Some? && !downloading
    }

    /** The sections the page currently shows: all three together, or none. */
    function Shown(): (sections: seq<Section>)
      reads this
      ensures |sections| == 3 <==> result.Some?
      ensures |sections| == 0 <==> result.None?
    {
      Sections(result)
    }

    /** `onChange`: the first file of the input, or none when the choice was cancelled. */
    method PickFile(f: Option<Upload>)
      requires Valid()
      modifies this
      ensures Valid()
      ensures file == f
      ensures result == old(result) && loading == old(loading) && downloading == old(downloading)
    {
      file := f;
    }

    /**
     * `runReview` up to the `await`: without a file nothing happens; with
     * one the page is loading, the old result is cleared and the file is
     * posted.
     */
    method StartReview() returns (posted: Option<Upload>)
      requires Valid() && !loading
      modifies this
      ensures Valid()
      ensures posted == old(file)
      ensures old(file).None? ==> !loading && result == old(result)
      ensures old(file).Some? ==> loading && result.None?
      ensures file == old(file) && downloading == old(downloading)
    {
      if file.None? {
        return None;
      }
      loading := true;
      result := None;
      posted := file;
    }

    /** `runReview` after the `await`: the response becomes the result; `finally` ends the loading. */
    method CompleteReview(outcome: Outcome<map<string, Value>>)
      requires Valid() && loading
      modifies this
      ensures Valid()
      ensures !loading
      ensures outcome.Success? ==> result == Some(outcome.payload)
      ensures outcome.Failure? ==> result.None?
      ensures file == old(file) && downloading == old(downloading)
    {
      if outcome.Success? {
        result := Some(outcome.payload);
      }
      loading := false;
    }

    /**
     * `downloadPDF` up to the `await`, reachable only from an enabled
     * button: without a file nothing happens; with one `downloading` is set
     * and the file is posted. The result, the loading flag and the file stay.
     */
    method StartDownload() returns (posted: Option<Upload>)
      requires Valid() && CanDownload()
      modifies this
      ensures Valid()
      ensures posted == old(file)
      ensures downloading <==> old(file).Some?
      ensures result == old(result) && loading == old(loading) && file == old(file)
    {
      if file.None? {
        return None;
      }
      downloading := true;
      posted := file;
    }

    /**
     * `downloadPDF` after the `await`: a response is saved as
     * `ai_code_review_report.pdf`, a failure saves nothing, and `finally`
     * resets `downloading` either way. The result, the loading flag and the
     * file stay.
     */
    method CompleteDownload<T>(outcome: Outcome<T>) returns (saved: Option<string>)
      requires Valid() && downloading
      modifies this
      ensures Valid()
      ensures !downloading
      ensures saved.Some? <==> outcome.Success?
      ensures saved.Some? ==> saved.value == ReviewPdfName
      ensures result == old(result) && loading == old(loading) && file == old(file)
    {
      saved := if outcome.Success? then Some(ReviewPdfName) else None;
      downloading := false;
    }
  }

  /**
   * A whole review: afterwards the page is idle, and it shows the three
   * sections exactly when the call succeeded.
   */
  method ReviewThenComplete(p: Page, outcome: Outcome<map<string, Value>>)
    requires p.Valid() && p.CanReview()
    modifies p
    ensures p.Valid() && !p.loading
    ensures |p.Shown()| == 3 <==> outcome.Success?
    ensures outcome.Success? ==> p.Shown() == Sections(Some(outcome.payload))
  {
    var posted := p.StartReview();
    p.CompleteReview(outcome);
  }

  /** A whole download leaves the result, and so the sections shown, as they were. */
  method DownloadThenComplete<T>(p: Page, outcome: Outcome<T>) returns (saved: Option<string>)
    requires p.Valid() && p.CanDownload() && p.file.Some?
    modifies p
    ensures p.Valid() && !p.downloading
    ensures p.result == old(p.result) && p.Shown() == old(p.Shown())
    ensures saved == (if outcome.Success? then Some(ReviewPdfName) else None)
  {
    var posted := p.StartDownload();
    saved := p.CompleteDownload(outcome);
  }
}
