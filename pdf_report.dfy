/**
 * The content list of the single-file review PDF: a title, then the review
 * and the test suggestions split into paragraphs on blank lines, then the
 * refactored code as one preformatted block. The page layout is not
 * modelled; the flowables are values.
 */
module PdfReport {
  import opened Wrappers
  import opened Strings

  /** A paragraph style: what is set explicitly, the other fields left to the library. */
  datatype Style = Style(
    name: string,
    fontName: Option<string>,
    fontSize: nat,
    leading: Option<nat>,
    spaceBefore: Option<nat>,
    spaceAfter: Option<nat>,
    alignment: Option<nat>)

  const TitleStyle := Style("Title", None, 18, None, None, Some(20), Some(1))
  const HeaderStyle := Style("Header", None, 14, None, Some(20), Some(10), None)
  const BodyStyle := Style("Body", None, 10, Some(14), None, None, None)
  const CodeStyle := Style("Code", Some("Courier"), 9, Some(12), None, None, None)

  datatype Flowable =
    | Paragraph(text: string, style: Style)
    | Spacer(width: nat, height: nat)
    | PageBreak
    | Preformatted(code: string, pstyle: Style, maxLineLength: nat)

  const ParagraphBreak := "\n\n"

  /** `text.replace("&", "&amp;")`. */
  function EscapeAmp(s: string): (r: string)
    ensures |r| == |s| + 4 * CountChar(s, '&')
  {
    if s == [] then []
    else if s[0] == '&' then "&amp;" + EscapeAmp(s[1..])
    else [s[0]] + EscapeAmp(s[1..])
  }

  /** The number of times `c` occurs in `s`. */
  function CountChar(s: string, c: char): nat {
    if s == [] then 0 else (if s[0] == c then 1 else 0) + CountChar(s[1..], c)
  }

  /** Reading `"&amp;"` back as `"&"`, the way the paragraph markup is read. */
  function UnescapeAmp(s: string): string
    decreases |s|
  {
    if |s| >= 5 && s[..5] == "&amp;" then "&" + UnescapeAmp(s[5..])
    else if s == [] then []
    else [s[0]] + UnescapeAmp(s[1..])
  }

  /** Escaping changes nothing but the ampersands: reading the markup back gives the piece again. */
  lemma {:induction false} EscapeAmpRoundTrip(s: string)
    ensures UnescapeAmp(EscapeAmp(s)) == s
  {
    if s != [] {
      EscapeAmpRoundTrip(s[1..]);
      var e := EscapeAmp(s);
      if s[0] == '&' {
        assert e[..5] == "&amp;" && e[5..] == EscapeAmp(s[1..]);
      } else {
        assert e[0] == s[0] && e[1..] == EscapeAmp(s[1..]);
        assert |e| >= 5 ==> e[..5][0] == e[0];
      }
    }
  }

  /** Text without `"&"` is left as it is. */
  lemma {:induction false} EscapeAmpWithoutAmpersand(s: string)
    requires '&' !in s
    ensures EscapeAmp(s) == s
  {
    if s != [] {
      EscapeAmpWithoutAmpersand(s[1..]);
    }
  }

  /** The flowables for the pieces of one section: a body paragraph and a small spacer per piece. */
  function Section(paras: seq<string>): (items: seq<Flowable>)
    ensures |items| == 2 * |paras|
  {
    if paras == [] then []
    else
      var last := paras[|paras| - 1];
      Section(paras[..|paras| - 1]) + [Paragraph(EscapeAmp(last), BodyStyle), Spacer(1, 6)]
  }

  /** Piece `k` becomes items `2k` and `2k + 1`, in order. */
  lemma {:induction false} SectionItems(paras: seq<string>)
    ensures forall k :: 0 <= k < |paras| ==>
              Section(paras)[2 * k] == Paragraph(EscapeAmp(paras[k]), BodyStyle)
              && Section(paras)[2 * k + 1] == Spacer(1, 6)
  {
    if paras != [] {
      var init := paras[..|paras| - 1];
      SectionItems(init);
      assert forall k :: 0 <= k < |init| ==> init[k] == paras[k];
    }
  }

  /** The title, its spacer and the review header. */
  const Opening: seq<Flowable> :=
    [Paragraph("AI Code Review Report", TitleStyle), Spacer(1, 12), Paragraph("Review Report", HeaderStyle)]

  /** The page break after the review and the tests header. */
  const TestsOpening: seq<Flowable> := [PageBreak, Paragraph("Test Suggestions", HeaderStyle)]

  /** The page break after the tests, the code header and the code, unescaped, 100 columns wide. */
  function Closing(refactored: string): seq<Flowable> {
    [PageBreak, Paragraph("Refactored Code", HeaderStyle), Preformatted(refactored, CodeStyle, 100)]
  }

  /** The content list for the review pieces `r` and the test pieces `t`. */
  function StoryOf(r: seq<string>, t: seq<string>, refactored: string): (story: seq<Flowable>)
    ensures |story| == 8 + 2 * (|r| + |t|)
    ensures story[|story| - 1] == Preformatted(refactored, CodeStyle, 100)
  {
    Opening + Section(r) + TestsOpening + Section(t) + Closing(refactored)
  }

  /** What the content list holds, section by section. */
  function Story(review: string, tests: string, refactored: string): (story: seq<Flowable>)
    ensures |story| >= 12
    ensures story[|story| - 1] == Preformatted(refactored, CodeStyle, 100)
  {
    StoryOf(Split(review, ParagraphBreak), Split(tests, ParagraphBreak), refactored)
  }

  /** One more piece adds its paragraph and its spacer at the end of the section. */
  lemma SectionSnoc(paras: seq<string>, i: nat)
    requires i < |paras|
    ensures Section(paras[..i + 1]) == Section(paras[..i]) + [Paragraph(EscapeAmp(paras[i]), BodyStyle), Spacer(1, 6)]
  {
    assert paras[..i + 1][..i] == paras[..i];
  }

  /** `for para in text.split("\n\n")`: a body paragraph and a spacer appended per piece. */
  method AppendSection(content: seq<Flowable>, paras: seq<string>) returns (out: seq<Flowable>)
    ensures out == content + Section(paras)
  {
    out := content;
    for i := 0 to |paras|
      invariant out == content + Section(paras[..i])
    {
      SectionSnoc(paras, i);
      out := out + [Paragraph(EscapeAmp(paras[i]), BodyStyle)];
      out := out + [Spacer(1, 6)];
    }
    assert paras[..|paras|] == paras;
  }

  /**
   * `generate_single_review_pdf` up to `doc.build`: the content list built
   * by appending, one loop per split section.
   */
  method BuildContent(review: string, tests: string, refactored: string) returns (content: seq<Flowable>)
    ensures content == Story(review, tests, refactored)
  {
    content := [];
    content := content + [Paragraph("AI Code Review Report", TitleStyle)];
    content := content + [Spacer(1, 12)];
    content := content + [Paragraph("Review Report", HeaderStyle)];
    assert content == Opening;
    content := AppendSection(content, Split(review, ParagraphBreak));
    var middle := content;
    content := content + [PageBreak];
    content := content + [Paragraph("Test Suggestions", HeaderStyle)];
    assert content == middle + TestsOpening;
    content := AppendSection(content, Split(tests, ParagraphBreak));
    var last := content;
    content := content + [PageBreak];
    content := content + [Paragraph("Refactored Code", HeaderStyle)];
    content := content + [Preformatted(refactored, CodeStyle, 100)];
    assert content == last + Closing(refactored);
  }

  /**
   * The story has eight fixed items and two per piece; there is one piece
   * more than there are blank-line separators in each text.
   */
  lemma StoryLength(review: string, tests: string, refactored: string)
    ensures |Split(review, ParagraphBreak)| == CountOccurrences(review, ParagraphBreak) + 1
    ensures |Split(tests, ParagraphBreak)| == CountOccurrences(tests, ParagraphBreak) + 1
    ensures |Story(review, tests, refactored)|
            == 8 + 2 * (|Split(review, ParagraphBreak)| + |Split(tests, ParagraphBreak)|)
  {
    SplitCount(review, ParagraphBreak);
    SplitCount(tests, ParagraphBreak);
  }

  /**
   * Where everything sits: the title and its spacer first, the review
   * header, the review's pieces, a page break and the tests header, the
   * tests' pieces, a page break and the code header, and last the code,
   * unescaped.
   */
  lemma StoryLayout(r: seq<string>, t: seq<string>, refactored: string)
    ensures var story := StoryOf(r, t, refactored);
            |story| == 8 + 2 * (|r| + |t|)
            && story[0] == Paragraph("AI Code Review Report", TitleStyle) && story[1] == Spacer(1, 12)
            && story[2] == Paragraph("Review Report", HeaderStyle)
            && story[3 + 2 * |r|] == PageBreak
            && story[4 + 2 * |r|] == Paragraph("Test Suggestions", HeaderStyle)
            && story[5 + 2 * |r| + 2 * |t|] == PageBreak
            && story[6 + 2 * |r| + 2 * |t|] == Paragraph("Refactored Code", HeaderStyle)
            && story[7 + 2 * |r| + 2 * |t|] == Preformatted(refactored, CodeStyle, 100)
  {
    var pre := Opening + Section(r);
    var mid := pre + TestsOpening;
    var body := mid + Section(t);
    assert StoryOf(r, t, refactored) == body + Closing(refactored);
    assert |pre| == 3 + 2 * |r| && |body| == 5 + 2 * |r| + 2 * |t|;
    assert mid[3 + 2 * |r|] == PageBreak && mid[4 + 2 * |r|] == Paragraph("Test Suggestions", HeaderStyle);
  }

  /** A section placed after `pre` puts piece `k` at `|pre| + 2k` and its spacer after it. */
  lemma SectionAt(pre: seq<Flowable>, paras: seq<string>)
    ensures forall k :: 0 <= k < |paras| ==>
              (pre + Section(paras))[|pre| + 2 * k] == Paragraph(EscapeAmp(paras[k]), BodyStyle)
              && (pre + Section(paras))[|pre| + 2 * k + 1] == Spacer(1, 6)
  {
    SectionItems(paras);
  }

  /** Piece `k` of the review is the item at `3 + 2k`, followed by its spacer. */
  lemma StoryReviewPieces(r: seq<string>, t: seq<string>, refactored: string)
    ensures var story := StoryOf(r, t, refactored);
            forall k :: 0 <= k < |r| ==>
              4 + 2 * k < |story|
              && story[3 + 2 * k] == Paragraph(EscapeAmp(r[k]), BodyStyle) && story[3 + 2 * k + 1] == Spacer(1, 6)
  {
    var pre := Opening + Section(r);
    var story := StoryOf(r, t, refactored);
    var mid := pre + TestsOpening;
    var body := mid + Section(t);
    assert story == body + Closing(refactored);
    SectionAt(Opening, r);
    forall k | 0 <= k < |r|
      ensures story[3 + 2 * k] == pre[3 + 2 * k] && story[3 + 2 * k + 1] == pre[3 + 2 * k + 1]
    {
      assert story[3 + 2 * k] == body[3 + 2 * k] == mid[3 + 2 * k];
      assert story[3 + 2 * k + 1] == body[3 + 2 * k + 1] == mid[3 + 2 * k + 1];
    }
  }

  /** Piece `k` of the tests is the item at `5 + 2|r| + 2k`, followed by its spacer. */
  lemma StoryTestPieces(r: seq<string>, t: seq<string>, refactored: string)
    ensures var story := StoryOf(r, t, refactored);
            forall k :: 0 <= k < |t| ==>
              6 + 2 * |r| + 2 * k < |story|
              && story[5 + 2 * |r| + 2 * k] == Paragraph(EscapeAmp(t[k]), BodyStyle)
              && story[5 + 2 * |r| + 2 * k + 1] == Spacer(1, 6)
  {
    var mid := Opening + Section(r) + TestsOpening;
    assert |mid| == 5 + 2 * |r|;
    SectionAt(mid, t);
  }

  /** Every item of a section is a body paragraph or a spacer. */
  lemma {:induction false} SectionIsBody(paras: seq<string>)
    ensures forall i :: 0 <= i < |Section(paras)| ==>
              (Section(paras)[i].Paragraph? && Section(paras)[i].style == BodyStyle) || Section(paras)[i].Spacer?
  {
    if paras != [] {
      SectionIsBody(paras[..|paras| - 1]);
    }
  }

  /**
   * Only the three headers use the header style, in the order review,
   * tests, code, and the code is the one preformatted item.
   */
  lemma StoryHeadersAndCode(r: seq<string>, t: seq<string>, refactored: string)
    ensures var story := StoryOf(r, t, refactored);
            forall i :: 0 <= i < |story| ==>
              (story[i].Paragraph? && story[i].style == HeaderStyle <==>
                 i == 2 || i == 4 + 2 * |r| || i == 6 + 2 * |r| + 2 * |t|)
              && (story[i].Preformatted? <==> i == |story| - 1)
  {
    var story := StoryOf(r, t, refactored);
    var n := 3 + 2 * |r|;
    var m := n + 2 + 2 * |t|;
    SectionIsBody(r);
    SectionIsBody(t);
    forall i | 0 <= i < |story|
      ensures (story[i].Paragraph? && story[i].style == HeaderStyle <==>
                 i == 2 || i == 4 + 2 * |r| || i == 6 + 2 * |r| + 2 * |t|)
              && (story[i].Preformatted? <==> i == |story| - 1)
    {
      if i < 3 {
        assert story[i] == Opening[i];
      } else if i < n {
        assert story[i] == Section(r)[i - 3];
      } else if i < n + 2 {
        assert story[i] == TestsOpening[i - n];
      } else if i < m {
        assert story[i] == Section(t)[i - n - 2];
      } else {
        assert story[i] == Closing(refactored)[i - m];
      }
    }
  }
}
