# AI code reviewer agent — a Dafny model of its core

The system reviews source code with a language model. It has two parts.

- The back end holds two workflow graphs:
  - a single-file pipeline: parse, then review, then refactor, then test suggestions;
  - a project graph: a router that sends a zipped project either to a review node, an architecture-explanation node or an interview-question node.
- Two front ends present the results:
  - a React application with a single-file page and a project page;
  - a Streamlit application.

The single-file PDF report builder is also part of the core.

The model covers the following.

- The project page of the React front end: its state (chosen file, active tab, result, loading flag), its run and PDF requests, its result card, and the interview renderer. The renderer turns the `interview_questions` text into numbered question/answer cards.
- The single-file page: its state (file, result, loading, downloading), its review and download requests, and its three result sections.
- The project graph: a router, a conditional edge on `user_request`, three analysis nodes and LangGraph's recursion limit of 25. This is a transition system over the project state.
- The single-file graph: its nodes (a datatype, each with the name it is registered under), its edge list (including the duplicated `START` edge and the registered but unreachable `human_approval` node), the keys each node reads and writes, and a `CodeState` class whose node methods fill in its fields.
- The FastAPI endpoints `/single-review` and `/project-review`:
  - the zip-entry filter;
  - the output normalisation;
  - the action-to-key mapping and its `"Unknown action"` reply.
- The Streamlit application:
  - language detection from the file name;
  - the action-label map;
  - the result displays of both modes.
- `generate_single_review_pdf`: its paragraph styles, and the content list it builds from the review, the tests and the refactored code. The `&` escaping is modelled with its inverse.

Outside calls are parameters of the model:

- the language model is a function from a prompt and the inputs to a reply, `Llm`;
- reading a zip entry is `read`;
- Python's `str()` of the final state is `repr`;
- an HTTP call is an `Outcome` handed to the page's completion method.

JavaScript's `split`/`join`/`trim` and Python's `split`/`lower` are defined once, in `Strings`.

Four behaviours of the code are worth stating outright.

- **Numbering.** The expression `^\s*\d+\.\s*` has the `g` flag and no `m` flag, so it removes at most one numbering, at offset 0 of the whole text. Removing it twice is not the same as removing it once: `"1. 2. x"` becomes `"2. x"` and then `"x"` (`InterviewParser.StripIsNotIdempotent`).
- **Failed runs.** Both pages clear the result when a run starts, and neither has a `catch`. After a failed run the result is empty and no card or section is shown (`ProjectPage.Page.CompleteRun`, `SingleFilePage.Page.CompleteReview`).
- **PDF export.** A PDF export, failed or not, never touches the result, so what is shown stays as it was (`SingleFilePage.Page.CompleteDownload`).
- **Project action.** The project page sends its tab's code as a form field, but the endpoint declares `action` as a query parameter. Every project request is therefore answered for `PROJECT_REVIEW` (`EndToEnd.ProjectPageAsWritten`, listed under "## Findings").

## Model

| member | source | states |
|---|---|---|
| Strings.IndexOf | frontend/src/components/Project.jsx:233 | the result is the leftmost occurrence of the separator at or after the offset, and there is none exactly when no occurrence exists there |
| Strings.Join | frontend/src/components/Project.jsx:241 | a join starts with the first part |
| Strings.Split | frontend/src/components/Project.jsx:233 | splitting on a non-empty separator yields at least one piece, and no piece contains the separator |
| Strings.JoinSplit | frontend/src/components/Project.jsx:240-241 | joining the pieces of a split with the same separator gives back the original text |
| Strings.SplitSeparates | frontend/src/components/Project.jsx:240 | a split yields more than one piece exactly when the separator occurs in the text |
| Strings.SplitHead | frontend/src/components/Project.jsx:240 | the first piece is the whole text when the separator is absent, and otherwise the text before its first occurrence |
| Strings.SplitCount | backend/utils/pdf_generator.py:66 | a split yields one piece more than there are non-overlapping occurrences of the separator |
| Strings.LeadingSpaces | frontend/src/components/Project.jsx:234 | the count is the length of the white-space prefix, and the character after it is not white space |
| Strings.TrailingSpaces | frontend/src/components/Project.jsx:234 | the count is the length of the white-space suffix, and the character before it is not white space |
| Strings.TrimStart | frontend/src/components/Project.jsx:230 | the result is a suffix of the text, what it drops is all white space, and it does not start with white space |
| Strings.Trim | frontend/src/components/Project.jsx:234 | the result is the text without white space at either end; it is empty exactly when the text is all white space; a non-empty result starts and ends with a visible character |
| Strings.TrimKeepsAbsence | frontend/src/components/Project.jsx:234 | trimming never introduces a marker that was absent |
| Strings.Lower | backend/app2.py:16 | lower-casing keeps the length and maps every character through the upper-to-lower mapping |
| Strings.AfterLast | backend/app2.py:16 | the part after the last separator is a suffix with no separator in it, preceded by the separator when it is shorter than the text |
| Strings.LastPieceIsAfterLast | backend/app2.py:16 | the last piece of `split(".")` is the text after the last period |
| Strings.LowerAfterLastDot | backend/app2.py:16 | taking the extension and then lower-casing equals lower-casing and then taking the extension |
| InterviewParser.SpacesEnd | frontend/src/components/Project.jsx:230 | the white space `\s*` from an offset ends at the first character that is not white space |
| InterviewParser.DigitsEnd | frontend/src/components/Project.jsx:230 | the digits `\d+` from an offset end at the first character that is not a digit |
| InterviewParser.NumberingEnd | frontend/src/components/Project.jsx:230 | a numbering found at offset 0 ends with a period inside the text |
| InterviewParser.NumberingEndOf | frontend/src/components/Project.jsx:230 | a text starting with white space, digits and a period has its numbering end at that period |
| InterviewParser.StripLeadingNumber | frontend/src/components/Project.jsx:230 | the stripped text is a suffix of the text |
| InterviewParser.StripNumbered | frontend/src/components/Project.jsx:229-230 | a text that starts with white space, digits and a period loses exactly that prefix and the white space after it |
| InterviewParser.StripFrom | frontend/src/components/Project.jsx:230 | once the numbering ends at a period, the text after the period is kept without its leading white space |
| InterviewParser.StripUnnumbered | frontend/src/components/Project.jsx:230 | a text that does not start with a numbering is left unchanged |
| InterviewParser.StripChangesOnlyNumbered | frontend/src/components/Project.jsx:230 | the strip changes the text if and only if the text starts with a numbering, and then shortens it |
| InterviewParser.StripOneDigit | frontend/src/components/Project.jsx:230 | `d. ` before a visible character is removed, and nothing else is |
| InterviewParser.StripIsNotIdempotent | frontend/src/components/Project.jsx:230 | only one numbering is removed: a doubly numbered text keeps its second number, which a second strip then removes |
| InterviewParser.TrimAll | frontend/src/components/Project.jsx:234 | every piece is trimmed, and the count and order are kept |
| InterviewParser.NonEmpty | frontend/src/components/Project.jsx:235 | the kept pieces are non-empty pieces of the input, and there are no more of them than input pieces |
| InterviewParser.NonEmptyAppend | frontend/src/components/Project.jsx:235 | filtering distributes over concatenation, so order is kept |
| InterviewParser.NonEmptySingle | frontend/src/components/Project.jsx:235 | a single piece is kept exactly when it is non-empty |
| InterviewParser.TrimAllKeepsAbsence | frontend/src/components/Project.jsx:232-235 | trimming and filtering pieces introduces no marker |
| InterviewParser.TrimAllTrims | frontend/src/components/Project.jsx:234 | every trimmed piece is empty or starts and ends with a visible character |
| InterviewParser.NonEmptyKeepsTrimmed | frontend/src/components/Project.jsx:235 | filtering out empty pieces from empty or trimmed pieces leaves only trimmed ones |
| InterviewParser.Blocks | frontend/src/components/Project.jsx:232-235 | every block is non-empty, and there are no more blocks than pieces of the split on `Question:` |
| InterviewParser.BlocksSeparated | frontend/src/components/Project.jsx:232-235 | every block is non-empty, has no white space at either end and contains no `Question:`; there are at most one more blocks than `Question:` occurrences |
| InterviewParser.FirstPieceKept | frontend/src/components/Project.jsx:234-235 | when the first piece is not blank, the first kept piece is that piece, trimmed |
| InterviewParser.PreambleIsFirstBlock | frontend/src/components/Project.jsx:232-235 | text before the first `Question:` that is not blank becomes the first block, trimmed |
| InterviewParser.SingleBlockIfNoMarker | frontend/src/components/Project.jsx:233 | a text without `Question:` splits into itself alone |
| InterviewParser.SingleBlockWithoutMarker | frontend/src/components/Project.jsx:230-235 | a non-blank stripped text without `Question:` is one block, the trimmed text |
| InterviewParser.QuestionAndAnswer | frontend/src/components/Project.jsx:240-241 | the question holds no `ANSWER:` |
| InterviewParser.QuestionAndAnswerSplits | frontend/src/components/Project.jsx:240-241 | the question contains no `ANSWER:` and is the text before the first `ANSWER:`; the answer is the rest after that marker, with later markers kept, and is empty when there is no marker |
| InterviewParser.MakeCard | frontend/src/components/Project.jsx:239-253 | the card carries the number it is given, and its question and its answer are each empty or start and end with a visible character |
| InterviewParser.Cards | frontend/src/components/Project.jsx:239-253 | one card per block: card `k` is made from block `k` and numbered `k + 1` |
| InterviewParser.Parse | frontend/src/components/Project.jsx:228-260 | the renderer yields one card per block, numbered 1, 2, … in order |
| InterviewParser.CardKeepsAbsence | frontend/src/components/Project.jsx:240-253 | a block without `Question:` gives a card whose question has no `ANSWER:` and whose question and answer have no `Question:` |
| InterviewParser.CardsKeepMarkersApart | frontend/src/components/Project.jsx:239-253 | the same holds for every card built from such blocks |
| InterviewParser.ParsedCardsKeepMarkersApart | frontend/src/components/Project.jsx:228-260 | for any text, no rendered question holds either marker and no answer holds `Question:` |
| InterviewParser.PiecesKeepAbsence | frontend/src/components/Project.jsx:240-241 | both halves of a block lacking `Question:` lack it too |
| InterviewParser.BlankTextHasNoCards | frontend/src/components/Project.jsx:230-235 | a blank text renders no blocks and no cards |
| ProjectPage.TabCode | frontend/src/components/Project.jsx:182-187 | every tab's id is one of the three action codes |
| ProjectPage.TabCodeInjective | frontend/src/components/Project.jsx:182-187 | two tabs send the same code if and only if they are the same tab |
| ProjectPage.TabField | frontend/src/components/Project.jsx:112-131 | every tab reads one of the three report fields |
| ProjectPage.BodyFor | frontend/src/components/Project.jsx:112-131 | the interview tab renders its text as parsed cards, the other tabs as a readable block, and a non-string value is an invalid child |
| ProjectPage.CardIf | frontend/src/components/Project.jsx:112-131 | a guarded card appears at most once, and only when its tab is the active one; it has that tab's title |
| ProjectPage.RenderedCards | frontend/src/components/Project.jsx:109-135 | without a result nothing is shown, and every shown card has the active tab's title |
| ProjectPage.RenderedCardsSelect | frontend/src/components/Project.jsx:109-135 | at most one card is shown; one is shown if and only if there is a result and the active tab's field is truthy; it has that tab's title, subtitle and body |
| ProjectPage.Page.constructor | frontend/src/components/Project.jsx:10-13 | no file, the review tab, no result, not loading |
| ProjectPage.Page.CanRun | frontend/src/components/Project.jsx:97-99 | the run button is enabled only with a file chosen, and never while a run is in flight |
| ProjectPage.Page.Cards | frontend/src/components/Project.jsx:109-135 | the page shows at most one card, and one exactly when its result has the active tab's field truthy |
| ProjectPage.Page.PickFile | frontend/src/components/Project.jsx:94 | the file is replaced and nothing else changes |
| ProjectPage.Page.SelectTab | frontend/src/components/Project.jsx:194 | the tab is replaced and nothing else changes |
| ProjectPage.Page.StartRun | frontend/src/components/Project.jsx:15-28 | a request carrying the file and the active tab's code is sent exactly when a file is chosen; then loading is set and the result cleared, and otherwise nothing changes |
| ProjectPage.Page.CompleteRun | frontend/src/components/Project.jsx:24-32 | loading ends; a success stores the response; a failure leaves the result empty |
| ProjectPage.Page.PdfRequest | frontend/src/components/Project.jsx:35-40 | a PDF request is made exactly when a file is chosen, with the file and the active tab's code |
| ProjectPage.SavedPdf | frontend/src/components/Project.jsx:42-56 | a file named `ai_project_report.pdf` is saved exactly when the call succeeds |
| ProjectPage.RunThenComplete | frontend/src/components/Project.jsx:15-33 | after a failed run there is no result and no card; after a successful one the result is the response and the cards are those the response gives for the tab active at the start, one exactly when its field is truthy; the file and the tab are unchanged |
| SingleFilePage.Sections | frontend/src/components/SingleFile.jsx:124-152 | without a result nothing is shown; with one, three sections titled review, tests and refactored code, showing `review_code`, `test_report` and `refactored_code` |
| SingleFilePage.Page.constructor | frontend/src/components/SingleFile.jsx:6-9 | no file, no result, not loading, not downloading |
| SingleFilePage.Page.CanReview | frontend/src/components/SingleFile.jsx:101-103 | the review button is enabled only with a file chosen, and never while a review is in flight |
| SingleFilePage.Page.CanDownload | frontend/src/components/SingleFile.jsx:112-114 | the download button is enabled only with a result, and never while a download is in flight |
| SingleFilePage.Page.Shown | frontend/src/components/SingleFile.jsx:124-152 | three sections when there is a result, none otherwise |
| SingleFilePage.Page.PickFile | frontend/src/components/SingleFile.jsx:94 | the file is replaced and nothing else changes |
| SingleFilePage.Page.StartReview | frontend/src/components/SingleFile.jsx:11-23 | the file is posted exactly when one is chosen; then loading is set and the result cleared |
| SingleFilePage.Page.CompleteReview | frontend/src/components/SingleFile.jsx:19-27 | loading ends; a success stores the response; a failure leaves the result empty |
| SingleFilePage.Page.StartDownload | frontend/src/components/SingleFile.jsx:30-42 | with a result present and no download running, the file is posted and downloading is set exactly when a file is chosen; the result is untouched |
| SingleFilePage.Page.CompleteDownload | frontend/src/components/SingleFile.jsx:44-56 | downloading ends; `ai_code_review_report.pdf` is saved exactly on success; the result is untouched |
| SingleFilePage.ReviewThenComplete | frontend/src/components/SingleFile.jsx:11-28 | three sections are shown exactly after a successful review, and they are the response's |
| SingleFilePage.DownloadThenComplete | frontend/src/components/SingleFile.jsx:30-57 | a download, whether it succeeds or fails, leaves what is shown unchanged and saves the file only on success |
| ProjectArchive.ProjectFiles | backend/main.py:31-36 | the map holds exactly the zip entries whose name does not end in `/`, each with its decoded content |
| ProjectGraph.RouterNode | backend/project_graph/graph_builder.py:12-14 | the router's update leaves the state unchanged |
| ProjectGraph.AnalysisNode | backend/project_graph/nodes.py:18-66 | each analysis node sets its own report to the model's reply on its prompt and the files, and leaves the other reports unchanged |
| ProjectGraph.RouteCondition | backend/project_graph/graph_builder.py:19-42 | the condition has an edge exactly for the three codes, and each code's edge leads to the node of that name |
| ProjectGraph.Step | backend/project_graph/graph_builder.py:12-46 | the router fails on an unknown code and otherwise passes the state unchanged to the code's node; an analysis node writes its report and goes to the end; any other node fails |
| ProjectGraph.Execute | backend/project_graph/graph_builder.py:32-48 | a run from the end is empty; a run never takes more steps than its budget, and starts at its node |
| ProjectGraph.Invoke | backend/project_graph/graph_builder.py:32-48 | a successful run starts at the router and takes at most 25 steps |
| ProjectGraph.InvokeRoutes | backend/project_graph/graph_builder.py:19-48 | a run succeeds if and only if `user_request` is one of the three codes; it then visits the router and the node named by the code, keeps the files and the request, writes that node's report and changes no other report |
| ProjectGraph.InitialState | backend/main.py:38-41 | the starting state has no report |
| ProjectGraph.ExactlyOneReport | backend/project_graph/graph_builder.py:25-48 | a run from the endpoint's starting state with a known code ends with exactly the requested report present |
| CodeGraph.NamesAreUnique | graph/graph_builder.py:8-20 | no two nodes are registered under the same name |
| CodeGraph.NextOf | graph/graph_builder.py:14-20 | a successor exists exactly when some edge leaves the node, and it is the target of such an edge |
| CodeGraph.EdgesAreDeterministic | graph/graph_builder.py:14-20 | edges leaving the same node, including the duplicated entry edge, lead to the same node |
| CodeGraph.NextOfFirst | graph/graph_builder.py:14-20 | the successor is the target of the first edge leaving the node |
| CodeGraph.Successors | graph/graph_builder.py:14-20 | entry leads to the parser, then the reviewer, the refactorer, the tester and the end |
| CodeGraph.PathFrom | graph/graph_builder.py:14-20 | following the edges for at most `fuel` steps gives at most `fuel` nodes, never the end node |
| CodeGraph.Pipeline | graph/graph_builder.py:14-22 | the run order has no more nodes than edges and ends before the end node |
| CodeGraph.PipelineOrder | graph/graph_builder.py:14-20 | the nodes run are exactly parser, reviewer, refactorer and tester, in that order |
| CodeGraph.HumanApprovalNeverRuns | graph/graph_builder.py:12-20 | `human_approval` is registered, but no edge enters it, so it never runs |
| CodeGraph.WritesAreSeparate | graph/nodes.py:9-32 | each analysis node writes exactly one key, never `raw_code`, and no two nodes write the same key |
| CodeGraph.ReadsFollowWrites | graph/nodes.py:9-32 | every node reads only the inputs and keys written by the nodes before it |
| CodeGraph.CodeState.constructor | graph/state.py:3-10 | the state holds the code and the language and no result yet |
| CodeGraph.CodeState.Keys | graph/state.py:3-10 | the keys present are the inputs plus one key for each result that is set |
| CodeGraph.CodeState.AsMap | graph/state.py:3-10 | the dictionary has exactly those keys, with the code and the language under their own keys |
| CodeGraph.CodeState.CodeParserNode | graph/nodes.py:9-13 | `parsed_summary` becomes the parser's reply on the raw code, and nothing else changes |
| CodeGraph.CodeState.CodeReviewerNode | graph/nodes.py:15-19 | `review_code` becomes the reviewer's reply on the raw code, and nothing else changes |
| CodeGraph.CodeState.RefactoredCodeNode | graph/nodes.py:21-26 | given a review, `refactored_code` becomes the refactor reply on the code and the review, and nothing else changes |
| CodeGraph.CodeState.TestCodeNode | graph/nodes.py:28-32 | given refactored code, `test_report` becomes the test reply on it, and nothing else changes |
| CodeGraph.CodeState.RunNode | graph/nodes.py:9-32 | running a node whose reads are present adds exactly its writes to the keys, sets them to its reply, and changes nothing else |
| CodeGraph.PipelineResult | graph/graph_builder.py:6-22 | the result holds the two inputs unchanged and the four replies: the parser's and the reviewer's on the raw code, the rewrite computed from the stored review and the tests from the stored rewrite |
| CodeGraph.Invoke | graph/graph_builder.py:6-22 | running the compiled pipeline on code and language yields the dictionary of the four replies chained in order |
| BackendApi.BoundAction | backend/main.py:27-28 | `action` is read from the query string, with `PROJECT_REVIEW` when the query names none |
| BackendApi.BoundActionIgnoresForm | backend/main.py:27-28 | the form's fields do not change the bound action |
| BackendApi.NormalizeText | backend/main.py:45-59 | the text is `result` if present, otherwise `final` if present, otherwise the string form of the whole result |
| BackendApi.ResponseKey | backend/main.py:61-71 | a key exists exactly for the three known actions |
| BackendApi.ResponseFor | backend/main.py:61-71 | the reply has one entry: the action's key holding the text, or `error: "Unknown action"` |
| BackendApi.ResponseKeysDistinct | backend/main.py:61-71 | the three keys differ from one another and from `error` |
| BackendApi.StateValue | backend/project_graph/state.py:3-8 | the final state is a dictionary whose keys are among the five state fields |
| BackendApi.StateTextIsRepr | backend/main.py:49-57 | a project state has neither `result` nor `final`, so the text is always the string form of the whole state |
| BackendApi.ProjectReview | backend/main.py:27-71 | a reply has exactly one entry, and for a known action it is under that action's key |
| BackendApi.ProjectReviewAnswers | backend/main.py:27-71 | the endpoint answers if and only if the action is one of the three codes, with the one matching key holding the stringified final state, which carries the requested report; `"Unknown action"` is never sent |
| BackendApi.SingleReview | backend/main.py:17-24 | the upload runs through the pipeline with the language fixed to `python`, and the pipeline's dictionary is returned |
| StreamlitApp.LanguageOf | backend/app2.py:17-22 | a known extension maps to its language, and any other to `text` |
| StreamlitApp.DetectLanguage | backend/app2.py:15-22 | every name yields one of the listed languages or `text` |
| StreamlitApp.DetectLanguageReadsLastExtension | backend/app2.py:15-22 | the language is looked up from the lower-cased text after the last period; a name without a period is looked up whole |
| StreamlitApp.DetectLanguageIgnoresCase | backend/app2.py:16 | names that differ only in letter case get the same language |
| StreamlitApp.ExtensionDecides | backend/app2.py:15-22 | a name ending in a period and an extension without a period gets the language of the lower-cased extension |
| StreamlitApp.PythonExtension | backend/app2.py:15-22 | any name ending in `.py` is python |
| StreamlitApp.PythonInAnyCase | backend/app2.py:15-22 | any name ending in `.PY` is python |
| StreamlitApp.LastExtensionOnly | backend/app2.py:15-22 | only the last extension counts: `.tar.gz` gives `text` |
| StreamlitApp.RequestMapCoversLabels | backend/app2.py:133-147 | every choice in the select box has a code; the choices map to distinct codes; the codes are those the graph routes |
| StreamlitApp.ProjectRunSucceeds | backend/app2.py:143-154 | a run started from any choice completes |
| StreamlitApp.HeadingsAreDistinct | backend/app2.py:162-172 | the three subheaders `📋 Project Review Report`, `📘 Project Explanation` and `🎯 Interview Questions` differ |
| StreamlitApp.ShowIf | backend/app2.py:162-172 | a report's block is shown exactly when the report is truthy, once, under that report's heading |
| StreamlitApp.DisplayParts | backend/app2.py:162-172 | the three report blocks, one after another, show only truthy reports with their own text, in rank order, and every truthy report among them |
| StreamlitApp.ProjectDisplay | backend/app2.py:157-172 | the display shows exactly the truthy reports, each once with its text under its own heading, in the order review, explanation, questions |
| StreamlitApp.ProjectDisplayShowsTheReport | backend/app2.py:143-172 | after a run the display shows exactly the one report written by it when the reply is not empty, and nothing otherwise |
| StreamlitApp.ProjectDisplayIgnoresRequest | backend/app2.py:157-172 | the display does not depend on the request code |
| StreamlitApp.SingleDisplayAsWritten | backend/app2.py:83-94 | the display as written succeeds exactly when `review_report`, `test_report` and `refactored_code` are present |
| StreamlitApp.SingleDisplayAsWrittenFails | backend/app2.py:73-94 | no pipeline result has `review_report`, so the display as written fails after every run |
| StreamlitApp.SingleDisplay | backend/app2.py:83-94 | the corrected display succeeds exactly when `review_code`, `test_report` and `refactored_code` are present |
| StreamlitApp.SingleDisplayShowsPipeline | backend/app2.py:73-94 | with that key every pipeline result displays the review, the tests and the rewrite |
| PdfReport.EscapeAmp | backend/utils/pdf_generator.py:67 | escaping adds four characters per `&` |
| PdfReport.EscapeAmpRoundTrip | backend/utils/pdf_generator.py:67 | unescaping an escaped paragraph gives back the paragraph |
| PdfReport.EscapeAmpWithoutAmpersand | backend/utils/pdf_generator.py:67 | a paragraph without `&` is unchanged |
| PdfReport.Section | backend/utils/pdf_generator.py:66-68 | a section has two items per paragraph |
| PdfReport.SectionItems | backend/utils/pdf_generator.py:66-68 | paragraph `k` becomes the escaped body paragraph at `2k`, followed by a 6-point spacer |
| PdfReport.SectionIsBody | backend/utils/pdf_generator.py:66-76 | every section item is a body paragraph or a spacer |
| PdfReport.SectionSnoc | backend/utils/pdf_generator.py:66-68 | one more paragraph adds its escaped body paragraph and its spacer at the end of the section |
| PdfReport.AppendSection | backend/utils/pdf_generator.py:66-68 | the loop over a text's paragraphs appends exactly that text's section to the content |
| PdfReport.BuildContent | backend/utils/pdf_generator.py:59-88 | the loops build exactly the story: title, spacer, review section, page break, tests section, page break, code |
| PdfReport.StoryOf | backend/utils/pdf_generator.py:59-88 | the content has 8 fixed items plus two per paragraph, and ends with the preformatted code |
| PdfReport.Story | backend/utils/pdf_generator.py:59-88 | the content of any report has at least 12 items, and ends with the preformatted code |
| PdfReport.StoryLength | backend/utils/pdf_generator.py:59-88 | the content has 8 fixed items plus two per paragraph, with one paragraph more than there are blank-line separators |
| PdfReport.StoryLayout | backend/utils/pdf_generator.py:59-88 | for any review and test paragraphs, title, spacer, headers, page breaks and the preformatted code (unescaped, 100 columns) are each at their fixed position |
| PdfReport.SectionAt | backend/utils/pdf_generator.py:66-76 | a section placed after any prefix puts paragraph `k` and its spacer at the prefix length plus `2k` |
| PdfReport.StoryReviewPieces | backend/utils/pdf_generator.py:64-68 | review paragraph `k` is the body paragraph at `3 + 2k`, followed by a spacer |
| PdfReport.StoryTestPieces | backend/utils/pdf_generator.py:72-76 | test paragraph `k` sits after the review section at `5 + 2r + 2k`, followed by a spacer |
| PdfReport.StoryHeadersAndCode | backend/utils/pdf_generator.py:59-88 | exactly three items use the header style, in the order review, tests, code, and the last item is the only preformatted one |
| EndToEnd.TabFieldIsResponseKey | frontend/src/components/Project.jsx:112-131 | each tab's code, once it reaches `action`, is answered by the back end under the field that tab's card reads |
| EndToEnd.ProjectPageAsWritten | backend/main.py:27-28 | as written, a request from any tab binds the default action, so the reply holds only `review_report` and neither the explanation tab nor the interview tab shows a card |
| EndToEnd.ProjectPageShowsAnswer | backend/main.py:27-71 | with `action` read from the form, a request from any tab is answered with a string under that tab's field, and the tab's card appears if and only if that string is non-empty |
| EndToEnd.AsJson | backend/main.py:22-24 | the pipeline's dictionary becomes a JSON object with the same keys and string values |
| EndToEnd.SingleFilePageShowsPipeline | frontend/src/components/SingleFile.jsx:124-149 | after a single-file review the three sections show the review, the test suggestions and the refactored code of the pipeline |

## Left out

- The language model, prompt template files and `load_dotenv` are left out. The model is the uninterpreted parameter `Llm`, and prompts are represented by their file names.
- LangGraph internals are left out: compilation, channels and the reducer. A node's update is merged by overwriting keys. The recursion limit is a step budget of 25.
- FastAPI's binding of `action` is modelled by `BackendApi.BoundAction`. The rest of FastAPI is left out: CORS, multipart parsing, `UploadFile.read` and UTF-8 decoding with `errors="ignore"`. The decoded text is a parameter.
- `zipfile` is left out: the zip's name list and a `read` function are parameters, and a corrupt archive is not modelled.
- Python's `str()` of a dictionary is the parameter `repr`, whose output format is not modelled.
- `Json.Value` has only strings, objects and `null`. JSON numbers, booleans and arrays are left out because no value the back end sends to the pages holds one.
- `Strings.Lower`: only ASCII upper-case letters are lowered. Python's full Unicode case mapping is not reproduced.
- The HTTP calls (axios), the Blob/URL download and the DOM anchor are left out. A call's result is an `Outcome` passed to the completion methods.
- Concurrency is left out. This includes interleaved completions and a second download started while a run is in flight. Every start is followed by its own completion.
- React's rendering details are left out: CSS, the sidebar and navigation, the status badge and button labels. Rendering an object as a child raises an error in React; the model represents it as `InvalidChild`.
- The Project page does not guard `downloadPDF` by a loading flag. Its declared effect is only the request, modelled by `ProjectPage.Page.PdfRequest` and `ProjectPage.SavedPdf`.
- `generate_diff_html` (difflib) and the Streamlit widgets, spinner and session storage are left out. The displays are modelled as functions of the stored result.
- The PDF layout is left out: reportlab's `SimpleDocTemplate`, page size, margins, `getSampleStyleSheet`, the unique file name and the `/tmp` path. The model stops at the content list and its styles.
- `backend/utils/project_pdf_generator.py` and the PDF endpoints are not part of this model.
- `human_approval` is represented only by its graph registration: it is unreachable. Its console I/O is not modelled.
- The repository's `app.py`, `project_graph/nodes.py` and `graph /nodes.py` are not part of this model.

## Findings

| source | as written | input that shows it | evidently intended | confidence | as-written member | corrected member |
|---|---|---|---|---|---|---|
| backend/main.py:28 | `action: str = "PROJECT_REVIEW"` without `Form(...)` is a query parameter, while the project page sends `action` as a multipart form field (frontend/src/components/Project.jsx:20-28) | the interview tab posts `action=INTERVIEW` in the form: the endpoint binds `PROJECT_REVIEW` and replies with `review_report` only, so no card appears | `action: str = Form("PROJECT_REVIEW")`, so that the tab's code reaches the graph | not executed | EndToEnd.ProjectPageAsWritten | EndToEnd.ProjectPageShowsAnswer |
| backend/app2.py:88 | the single-file display reads `r["review_report"]`, but the pipeline writes its review under `review_code` (graph/nodes.py:18) | any uploaded file after "Run Code Review": the result has no `review_report`, so the subscript raises `KeyError` | read `r["review_code"]`, as the React page does (frontend/src/components/SingleFile.jsx:132) | not executed | StreamlitApp.SingleDisplayAsWrittenFails | StreamlitApp.SingleDisplayShowsPipeline |
