/**
 * The single-file review pipeline: one state record threaded through four
 * nodes that each assign one key in place. The language model is a
 * parameter: it maps a prompt file and the template arguments to the reply.
 */
module CodeGraph {
  import opened Wrappers

  /** The model call: prompt file and template arguments to reply text. */
  type Llm = (string, map<string, string>) -> string

  /** The nodes of the graph, the two virtual end points included. */
  datatype Node = Start | End | CodeParser | CodeReviewer | Refactorer | Tester | HumanApproval

  /** The name each node is registered under. */
  function Name(n: Node): string {
    match n
    case Start => "__start__"
    case End => "__end__"
    case CodeParser => "code_parser"
    case CodeReviewer => "code_reviewer"
    case Refactorer => "refactored_code"
    case Tester => "test_code"
    case HumanApproval => "human_approval"
  }

  /** A name identifies its node: no two nodes are registered under the same name. */
  lemma NamesAreUnique(a: Node, b: Node)
    ensures Name(a) == Name(b) ==> a == b
  {
    if a != b {
      assert |Name(a)| != |Name(b)| || Name(a)[0] != Name(b)[0];
    }
  }

  /** Every node the builder registers. */
  const Nodes := {CodeParser, CodeReviewer, Refactorer, Tester, HumanApproval}

  /** The four nodes the pipeline can run. */
  const Analysis := {CodeParser, CodeReviewer, Refactorer, Tester}

  /** The edges in the order the builder adds them; the entry point and the first edge coincide. */
  const Edges: seq<(Node, Node)> :=
    [(Start, CodeParser), (Start, CodeParser), (CodeParser, CodeReviewer),
     (CodeReviewer, Refactorer), (Refactorer, Tester), (Tester, End)]

  /** The keys the caller puts into the state. */
  const InputKeys := {"raw_code", "language"}

  /** The keys each node reads. */
  function ReadsOf(node: Node): set<string> {
    if node == CodeParser || node == CodeReviewer then {"raw_code"}
    else if node == Refactorer then {"raw_code", "review_code"}
    else if node == Tester then {"refactored_code"}
    else {}
  }

  /** The keys each node writes. */
  function WritesOf(node: Node): set<string> {
    if node == CodeParser then {"parsed_summary"}
    else if node == CodeReviewer then {"review_code"}
    else if node == Refactorer then {"refactored_code"}
    else if node == Tester then {"test_report"}
    else {}
  }

  /** The target of the first edge leaving `node`, in the order of `edges`. */
  function NextOf(edges: seq<(Node, Node)>, node: Node): (next: Option<Node>)
    ensures next.Some? <==> exists i :: 0 <= i < |edges| && edges[i].0 == node
    ensures next.Some? ==> exists i :: 0 <= i < |edges| && edges[i] == (node, next.value)
  {
    if edges == [] then None
    else if edges[0].0 == node then Some(edges[0].1)
    else
      var rest := NextOf(edges[1..], node);
      assert forall i :: 1 <= i < |edges| ==> edges[i] == edges[1..][i - 1];
      rest
  }

  /** Every source node has one target, so taking the first edge loses nothing. */
  lemma EdgesAreDeterministic()
    ensures forall i, j :: 0 <= i < |Edges| && 0 <= j < |Edges| && Edges[i].0 == Edges[j].0 ==> Edges[i].1 == Edges[j].1
  {
  }

  /** The first edge leaving `node` decides the next node. */
  lemma {:induction false} NextOfFirst(edges: seq<(Node, Node)>, node: Node, i: nat)
    requires i < |edges| && edges[i].0 == node
    requires forall j :: 0 <= j < i ==> edges[j].0 != node
    ensures NextOf(edges, node) == Some(edges[i].1)
  {
    if i > 0 {
      NextOfFirst(edges[1..], node, i - 1);
    }
  }

  /** The nodes run from `node` on, following the edges until the end (`fuel` bounds the walk). */
  function PathFrom(node: Node, fuel: nat): (path: seq<Node>)
    ensures |path| <= fuel
    ensures End !in path
    decreases fuel
  {
    if fuel == 0 then []
    else match NextOf(Edges, node)
      case None => []
      case Some(next) => if next == End then [] else [next] + PathFrom(next, fuel - 1)
  }

  /** The order of the nodes a run executes. */
  function Pipeline(): (path: seq<Node>)
    ensures |path| <= |Edges|
    ensures End !in path
  {
    PathFrom(Start, |Edges|)
  }

  /** The sources of the edges, in order. */
  lemma EdgeSources()
    ensures |Edges| == 6
    ensures Edges[0].0 == Start && Edges[1].0 == Start && Edges[2].0 == CodeParser
    ensures Edges[3].0 == CodeReviewer && Edges[4].0 == Refactorer && Edges[5].0 == Tester
  {
  }

  /** The edges chain the nodes one after the other, from the start to the end. */
  lemma Successors()
    ensures NextOf(Edges, Start) == Some(CodeParser)
    ensures NextOf(Edges, CodeParser) == Some(CodeReviewer)
    ensures NextOf(Edges, CodeReviewer) == Some(Refactorer)
    ensures NextOf(Edges, Refactorer) == Some(Tester)
    ensures NextOf(Edges, Tester) == Some(End)
  {
    StartSuccessor();
    ParserSuccessor();
    ReviewerSuccessor();
    RefactorerSuccessor();
    TesterSuccessor();
  }

  lemma StartSuccessor()
    ensures NextOf(Edges, Start) == Some(CodeParser)
  {
    EdgeSources();
    NextOfFirst(Edges, Start, 0);
  }

  lemma ParserSuccessor()
    ensures NextOf(Edges, CodeParser) == Some(CodeReviewer)
  {
    EdgeSources();
    NextOfFirst(Edges, CodeParser, 2);
  }

  lemma ReviewerSuccessor()
    ensures NextOf(Edges, CodeReviewer) == Some(Refactorer)
  {
    EdgeSources();
    NextOfFirst(Edges, CodeReviewer, 3);
  }

  lemma RefactorerSuccessor()
    ensures NextOf(Edges, Refactorer) == Some(Tester)
  {
    EdgeSources();
    NextOfFirst(Edges, Refactorer, 4);
  }

  lemma TesterSuccessor()
    ensures NextOf(Edges, Tester) == Some(End)
  {
    EdgeSources();
    NextOfFirst(Edges, Tester, 5);
  }

  /**
   * A run executes the parser, the reviewer, the refactorer and the tester
   * in that order.
   */
  lemma PipelineOrder()
    ensures |Pipeline()| == 4
    ensures Pipeline()[0] == CodeParser && Pipeline()[1] == CodeReviewer
    ensures Pipeline()[2] == Refactorer && Pipeline()[3] == Tester
  {
    Successors();
    EdgeSources();
    PathStep(Start, CodeParser, 6);
    PathStep(CodeParser, CodeReviewer, 5);
    PathStep(CodeReviewer, Refactorer, 4);
    PathStep(Refactorer, Tester, 3);
    assert PathFrom(Tester, 2) == [];
  }

  /** A walk that is not at its end runs the next node and goes on from there. */
  lemma PathStep(node: Node, next: Node, fuel: nat)
    requires fuel > 0 && NextOf(Edges, node) == Some(next) && next != End
    ensures PathFrom(node, fuel) == [next] + PathFrom(next, fuel - 1)
  {
  }

  /** `human_approval` is registered but no edge leads to it, so it never runs. */
  lemma HumanApprovalNeverRuns()
    ensures HumanApproval in Nodes
    ensures forall i :: 0 <= i < |Edges| ==> Edges[i].1 != HumanApproval
    ensures HumanApproval !in Pipeline()
  {
    PipelineOrder();
  }

  /** The keys present after the first `k` nodes of the pipeline. */
  function KeysAfter(path: seq<Node>, k: nat): set<string>
    requires k <= |path|
  {
    if k == 0 then InputKeys else KeysAfter(path, k - 1) + WritesOf(path[k - 1])
  }

  /** Each node writes one key of its own, and no node writes `raw_code`. */
  lemma WritesAreSeparate()
    ensures forall n :: n in Analysis ==> |WritesOf(n)| == 1 && "raw_code" !in WritesOf(n)
    ensures forall n, m :: n in Analysis && m in Analysis && n != m ==> WritesOf(n) !! WritesOf(m)
  {
  }

  /** Every key a node of the pipeline reads is an input or was written by an earlier node. */
  lemma ReadsFollowWrites()
    ensures forall k :: 0 <= k < |Pipeline()| ==> ReadsOf(Pipeline()[k]) <= KeysAfter(Pipeline(), k)
  {
    PipelineOrder();
    var p := Pipeline();
    assert KeysAfter(p, 0) == InputKeys;
    assert KeysAfter(p, 1) == InputKeys + {"parsed_summary"};
    assert KeysAfter(p, 2) == InputKeys + {"parsed_summary", "review_code"};
    assert KeysAfter(p, 3) == InputKeys + {"parsed_summary", "review_code", "refactored_code"};
  }

  /** The replies of the four nodes, each a model call over the template arguments it formats. */
  function ParserReply(llm: Llm, code: string): string {
    llm("prompts/parser.txt", map["code" := code])
  }

  function ReviewerReply(llm: Llm, code: string): string {
    llm("prompts/reviewer.txt", map["code" := code])
  }

  function RefactorReply(llm: Llm, code: string, review: string): string {
    llm("prompts/refactor.txt", map["code" := code, "review" := review])
  }

  function TestReply(llm: Llm, code: string): string {
    llm("prompts/test.txt", map["code" := code])
  }

  /** The dictionary threaded through the nodes. */
  class CodeState {
    var rawCode: string
    var language: string
    var parsedSummary: Option<string>
    var reviewCode: Option<string>
    var refactoredCode: Option<string>
    var testReport: Option<string>

    /** `{"raw_code": rawCode, "language": language}`. */
    constructor(raw: string, lang: string)
      ensures rawCode == raw && language == lang
      ensures parsedSummary == None && reviewCode == None && refactoredCode == None && testReport == None
      ensures Keys() == InputKeys
    {
      rawCode := raw;
      language := lang;
      parsedSummary := None;
      reviewCode := None;
      refactoredCode := None;
      testReport := None;
    }

    /** The keys the dictionary holds. */
    function Keys(): (keys: set<string>)
      reads this
      ensures InputKeys <= keys
      ensures "parsed_summary" in keys <==> parsedSummary.Some?
      ensures "review_code" in keys <==> reviewCode.Some?
      ensures "refactored_code" in keys <==> refactoredCode.Some?
      ensures "test_report" in keys <==> testReport.Some?
    {
      InputKeys
      + (if parsedSummary.Some? then {"parsed_summary"} else {})
      + (if reviewCode.Some? then {"review_code"} else {})
      + (if refactoredCode.Some? then {"refactored_code"} else {})
      + (if testReport.Some? then {"test_report"} else {})
    }

    /** The dictionary itself, as the graph returns it. */
    function AsMap(): (m: map<string, string>)
      reads this
      ensures m.Keys == Keys()
      ensures m["raw_code"] == rawCode && m["language"] == language
    {
      var m0 := map["raw_code" := rawCode, "language" := language];
      var m1 := if parsedSummary.Some? then m0["parsed_summary" := parsedSummary.value] else m0;
      var m2 := if reviewCode.Some? then m1["review_code" := reviewCode.value] else m1;
      var m3 := if refactoredCode.Some? then m2["refactored_code" := refactoredCode.value] else m2;
      if testReport.Some? then m3["test_report" := testReport.value] else m3
    }

    /** `code_parser_node`: the model's summary of the raw code. */
    method CodeParserNode(llm: Llm)
      modifies this
      ensures rawCode == old(rawCode) && language == old(language)
      ensures reviewCode == old(reviewCode) && refactoredCode == old(refactoredCode) && testReport == old(testReport)
      ensures parsedSummary == Some(ParserReply(llm, rawCode))
    {
      parsedSummary := Some(ParserReply(llm, rawCode));
    }

    /** `code_reviewer_node`: the model's review of the raw code. */
    method CodeReviewerNode(llm: Llm)
      modifies this
      ensures rawCode == old(rawCode) && language == old(language)
      ensures parsedSummary == old(parsedSummary) && refactoredCode == old(refactoredCode) && testReport == old(testReport)
      ensures reviewCode == Some(ReviewerReply(llm, rawCode))
    {
      reviewCode := Some(ReviewerReply(llm, rawCode));
    }

    /** `refactored_code`: the model's rewrite of the raw code guided by the review, which must be present. */
    method RefactoredCodeNode(llm: Llm)
      requires reviewCode.Some?
      modifies this
      ensures rawCode == old(rawCode) && language == old(language)
      ensures parsedSummary == old(parsedSummary) && reviewCode == old(reviewCode) && testReport == old(testReport)
      ensures refactoredCode == Some(RefactorReply(llm, rawCode, reviewCode.value))
    {
      refactoredCode := Some(RefactorReply(llm, rawCode, reviewCode.value));
    }

    /** `test_code`: the model's test suggestions for the refactored code, which must be present. */
    method TestCodeNode(llm: Llm)
      requires refactoredCode.Some?
      modifies this
      ensures rawCode == old(rawCode) && language == old(language)
      ensures parsedSummary == old(parsedSummary) && reviewCode == old(reviewCode) && refactoredCode == old(refactoredCode)
      ensures testReport == Some(TestReply(llm, refactoredCode.value))
    {
      testReport := Some(TestReply(llm, refactoredCode.value));
    }

    /**
     * Run the node called `node`: what it reads must be present; it adds
     * the keys it writes and leaves every other key as it was.
     */
    method RunNode(node: Node, llm: Llm)
      requires node in Analysis && ReadsOf(node) <= Keys()
      modifies this
      ensures Keys() == old(Keys()) + WritesOf(node)
      ensures rawCode == old(rawCode) && language == old(language)
      ensures "parsed_summary" !in WritesOf(node) ==> parsedSummary == old(parsedSummary)
      ensures "review_code" !in WritesOf(node) ==> reviewCode == old(reviewCode)
      ensures "refactored_code" !in WritesOf(node) ==> refactoredCode == old(refactoredCode)
      ensures "test_report" !in WritesOf(node) ==> testReport == old(testReport)
      ensures node == CodeParser ==> parsedSummary == Some(ParserReply(llm, rawCode))
      ensures node == CodeReviewer ==> reviewCode == Some(ReviewerReply(llm, rawCode))
      ensures node == Refactorer ==>
                reviewCode.Some? && refactoredCode == Some(RefactorReply(llm, rawCode, reviewCode.value))
      ensures node == Tester ==>
                refactoredCode.Some? && testReport == Some(TestReply(llm, refactoredCode.value))
    {
      if node == CodeParser {
        CodeParserNode(llm);
      } else if node == CodeReviewer {
        CodeReviewerNode(llm);
      } else if node == Refactorer {
        RefactoredCodeNode(llm);
      } else {
        TestCodeNode(llm);
      }
    }
  }

  /** The dictionary a full run returns: the inputs and the four replies, each fed by the earlier ones. */
  function PipelineResult(raw: string, lang: string, llm: Llm): (result: map<string, string>)
    ensures result.Keys == InputKeys + {"parsed_summary", "review_code", "refactored_code", "test_report"}
    ensures result["raw_code"] == raw && result["language"] == lang
    ensures result["parsed_summary"] == ParserReply(llm, raw)
    ensures result["review_code"] == ReviewerReply(llm, raw)
    ensures result["refactored_code"] == RefactorReply(llm, raw, result["review_code"])
    ensures result["test_report"] == TestReply(llm, result["refactored_code"])
  {
    var review := ReviewerReply(llm, raw);
    var refactored := RefactorReply(llm, raw, review);
    map["raw_code" := raw, "language" := lang,
        "parsed_summary" := ParserReply(llm, raw), "review_code" := review,
        "refactored_code" := refactored, "test_report" := TestReply(llm, refactored)]
  }

  /**
   * `Final.invoke({"raw_code": raw, "language": lang})`: one state, the
   * nodes of the pipeline run on it one after the other in the order the
   * edges give. The result holds the inputs unchanged and every reply, each
   * computed from what the earlier nodes wrote.
   */
  method Invoke(raw: string, lang: string, llm: Llm) returns (result: map<string, string>)
    ensures result == PipelineResult(raw, lang, llm)
  {
    var st := new CodeState(raw, lang);
    var path := Pipeline();
    PipelineOrder();
    st.RunNode(path[0], llm);
    st.RunNode(path[1], llm);
    st.RunNode(path[2], llm);
    st.RunNode(path[3], llm);
    result := st.AsMap();
  }
}
