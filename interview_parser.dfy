/**
 * The interview question-and-answer renderer of the project page: it turns
 * the `interview_questions` text returned by the back end into numbered
 * question/answer cards.
 *
 * The steps, in the order the renderer applies them:
 *  1. remove a numbering prefix matching `^\s*\d+\.\s*` (flag `g`) -- the
 *     expression has no `m` flag, so `^` anchors at offset 0 of the whole text only and the prefix
 *     is removed at most once;
 *  2. split on `"Question:"`, trim every piece, drop the empty ones;
 *  3. split every block on `"ANSWER:"`: the first piece is the question, the
 *     other pieces joined again with `"ANSWER:"` are the answer;
 *  4. number the cards from 1 and trim question and answer.
 */
module InterviewParser {
  import opened Wrappers
  import opened Strings

  const QuestionMarker := "Question:"
  const AnswerMarker := "ANSWER:"

  /** One rendered card: `Q{number}. {question}` above `{answer}`. */
  datatype QaCard = QaCard(number: nat, question: string, answer: string)

  /** The offset of the first character at or after `i` that is not white space. */
  function SpacesEnd(s: string, i: nat): (j: nat)
    requires i <= |s|
    ensures i <= j <= |s|
    ensures forall k :: i <= k < j ==> IsSpace(s[k])
    ensures j < |s| ==> !IsSpace(s[j])
    decreases |s| - i
  {
    if i < |s| && IsSpace(s[i]) then SpacesEnd(s, i + 1) else i
  }

  /** The offset of the first character at or after `i` that is not a decimal digit. */
  function DigitsEnd(s: string, i: nat): (j: nat)
    requires i <= |s|
    ensures i <= j <= |s|
    ensures forall k :: i <= k < j ==> IsDigit(s[k])
    ensures j < |s| ==> !IsDigit(s[j])
    decreases |s| - i
  {
    if i < |s| && IsDigit(s[i]) then DigitsEnd(s, i + 1) else i
  }

  /**
   * `t` starts with a match of `\s*\d+\.` whose white space ends at `i` and
   * whose digits occupy `t[i..j]`, so that the period is `t[j]`.
   */
  predicate NumberingAt(t: string, i: int, j: int) {
    && 0 <= i < j < |t|
    && (forall k :: 0 <= k < i ==> IsSpace(t[k]))
    && (forall k :: i <= k < j ==> IsDigit(t[k]))
    && t[j] == '.'
  }

  ghost predicate StartsWithNumbering(t: string) {
    exists i, j :: NumberingAt(t, i, j)
  }

  /** `text.replace` of the pattern `^\s*\d+\.\s*` (flag `g`, no `m`) by `""`. */
  function StripLeadingNumber(text: string): (r: string)
    ensures |r| <= |text| && r == text[|text| - |r|..]
  {
    match NumberingEnd(text)
    case Some(j) => TrimStart(text[j + 1..])
    case None => text
  }

  /** The offset of the period that ends a leading `\s*\d+\.`, if the text starts with one. */
  function NumberingEnd(text: string): (e: Option<nat>)
    ensures e.Some? ==> e.value < |text| && text[e.value] == '.'
  {
    var i := SpacesEnd(text, 0);
    var j := DigitsEnd(text, i);
    if i < j < |text| && text[j] == '.' then Some(j) else None
  }

  /** A numbering whose period is `t[j]` is the one the strip finds. */
  lemma NumberingEndOf(t: string, i: int, j: int)
    requires NumberingAt(t, i, j)
    ensures NumberingEnd(t) == Some(j)
  {
    assert !IsSpace(t[i]);
    SpacesEndUnique(t, 0, i);
    DigitsEndUnique(t, i, j);
  }

  /** The white space from `i` ends at any `n` that all white space precedes and none follows. */
  lemma SpacesEndUnique(s: string, i: nat, n: nat)
    requires i <= n <= |s| && (forall k :: i <= k < n ==> IsSpace(s[k]))
    requires n < |s| ==> !IsSpace(s[n])
    ensures SpacesEnd(s, i) == n
  {
  }

  /** The digits from `i` end at any `n` that only digits precede and no digit follows. */
  lemma DigitsEndUnique(s: string, i: nat, n: nat)
    requires i <= n <= |s| && (forall k :: i <= k < n ==> IsDigit(s[k]))
    requires n < |s| ==> !IsDigit(s[n])
    ensures DigitsEnd(s, i) == n
  {
  }

  /**
   * A numbered text loses exactly its numbering: the result is what follows
   * the first period, without its leading white space. Anything later --
   * a second `"2. "` included -- is kept.
   */
  lemma StripNumbered(t: string, i: int, j: int)
    requires NumberingAt(t, i, j)
    ensures StripLeadingNumber(t) == TrimStart(t[j + 1..])
  {
    NumberingEndOf(t, i, j);
    StripFrom(t, j);
  }

  /** Once the period is found at `j`, the strip keeps what follows it, trimmed at the start. */
  lemma StripFrom(t: string, j: nat)
    requires NumberingEnd(t) == Some(j)
    ensures StripLeadingNumber(t) == TrimStart(t[j + 1..])
  {
  }

  /** A text that does not start with a numbering is left as it is. */
  lemma StripUnnumbered(t: string)
    requires !StartsWithNumbering(t)
    ensures StripLeadingNumber(t) == t
  {
    var i := SpacesEnd(t, 0);
    var j := DigitsEnd(t, i);
    assert i < j < |t| && t[j] == '.' ==> NumberingAt(t, i, j);
  }

  /** The text changes exactly when it starts with a numbering, and then it shrinks. */
  lemma {:induction false} StripChangesOnlyNumbered(t: string)
    ensures StripLeadingNumber(t) != t <==> StartsWithNumbering(t)
    ensures StartsWithNumbering(t) ==> |StripLeadingNumber(t)| < |t|
  {
    if StartsWithNumbering(t) {
      var i, j :| NumberingAt(t, i, j);
      StripNumbered(t, i, j);
    } else {
      StripUnnumbered(t);
    }
  }

  /** `"d. rest"` loses its `"d. "` and nothing more when `rest` starts with a visible character. */
  lemma {:induction false} StripOneDigit(d: char, rest: string)
    requires IsDigit(d) && rest != [] && !IsSpace(rest[0])
    ensures StripLeadingNumber([d, '.', ' '] + rest) == rest
  {
    var t := [d, '.', ' '] + rest;
    assert NumberingAt(t, 0, 1);
    StripNumbered(t, 0, 1);
    var v := t[2..];
    assert v[..1] == [' '] && v[1] == rest[0] && v[1..] == rest;
    LeadingSpacesUnique(v, 1);
  }

  /**
   * The prefix is removed once, not repeatedly: a text numbered twice keeps
   * its second number, so stripping the result again changes it once more.
   */
  lemma {:induction false} StripIsNotIdempotent(rest: string)
    requires rest != [] && !IsSpace(rest[0])
    ensures StripLeadingNumber("1. 2. " + rest) == "2. " + rest
    ensures StripLeadingNumber(StripLeadingNumber("1. 2. " + rest)) == rest
  {
    var u := "2. " + rest;
    assert "1. 2. " + rest == ['1', '.', ' '] + u;
    StripOneDigit('1', u);
    assert u == ['2', '.', ' '] + rest;
    StripOneDigit('2', rest);
  }

  /** `.map(b => b.trim())`. */
  function TrimAll(pieces: seq<string>): (r: seq<string>)
    ensures |r| == |pieces|
    ensures forall k :: 0 <= k < |r| ==> r[k] == Trim(pieces[k])
  {
    seq(|pieces|, k requires 0 <= k < |pieces| => Trim(pieces[k]))
  }

  /** `.filter(b => b.length > 0)`: the non-empty strings, each taken from `xs`. */
  function NonEmpty(xs: seq<string>): (r: seq<string>)
    ensures |r| <= |xs|
    ensures forall k :: 0 <= k < |r| ==> r[k] != [] && r[k] in xs
  {
    if xs == [] then []
    else (if xs[0] == [] then [] else [xs[0]]) + NonEmpty(xs[1..])
  }

  /** Filtering distributes over concatenation: it keeps the order of the strings. */
  lemma {:induction false} NonEmptyAppend(a: seq<string>, b: seq<string>)
    ensures NonEmpty(a + b) == NonEmpty(a) + NonEmpty(b)
  {
    if a == [] {
      assert a + b == b;
    } else {
      assert (a + b)[1..] == a[1..] + b;
      NonEmptyAppend(a[1..], b);
    }
  }

  /** A string is filtered out exactly when it is empty. */
  lemma NonEmptySingle(x: string)
    ensures x == [] ==> NonEmpty([x]) == []
    ensures x != [] ==> NonEmpty([x]) == [x]
  {
    assert [x][1..] == [];
  }

  /** A string in none of whose elements `d` occurs gives blocks in none of which it occurs. */
  lemma TrimAllKeepsAbsence(pieces: seq<string>, d: string)
    requires forall i :: 0 <= i < |pieces| ==> !Contains(pieces[i], d)
    ensures forall k :: 0 <= k < |NonEmpty(TrimAll(pieces))| ==> !Contains(NonEmpty(TrimAll(pieces))[k], d)
  {
    var trimmed := TrimAll(pieces);
    forall i | 0 <= i < |trimmed| ensures !Contains(trimmed[i], d) {
      TrimKeepsAbsence(pieces[i], d);
    }
  }

  /** The text of the blocks, in source order, before the questions are split from the answers. */
  function Blocks(text: string): (blocks: seq<string>)
    ensures |blocks| <= |Split(StripLeadingNumber(text), QuestionMarker)|
    ensures forall k :: 0 <= k < |blocks| ==> blocks[k] != []
  {
    NonEmpty(TrimAll(Split(StripLeadingNumber(text), QuestionMarker)))
  }

  /**
   * Every block is non-empty, starts and ends with a character that is not
   * white space, and contains no `"Question:"`; there is at most one block
   * per separator plus one.
   */
  lemma BlocksSeparated(text: string)
    ensures forall k :: 0 <= k < |Blocks(text)| ==> Trimmed(Blocks(text)[k])
    ensures forall k :: 0 <= k < |Blocks(text)| ==> !Contains(Blocks(text)[k], QuestionMarker)
    ensures |Blocks(text)| <= CountOccurrences(StripLeadingNumber(text), QuestionMarker) + 1
  {
    var cleaned := StripLeadingNumber(text);
    var parts := Split(cleaned, QuestionMarker);
    TrimAllKeepsAbsence(parts, QuestionMarker);
    SplitCount(cleaned, QuestionMarker);
    TrimAllTrims(parts);
    NonEmptyKeepsTrimmed(TrimAll(parts));
  }

  /** A non-empty text that starts and ends with a character that is not white space. */
  predicate Trimmed(b: string) {
    b != [] && !IsSpace(b[0]) && !IsSpace(Last(b))
  }

  /** Every trimmed piece is empty or trimmed at both ends. */
  lemma TrimAllTrims(pieces: seq<string>)
    ensures forall i :: 0 <= i < |TrimAll(pieces)| ==> TrimAll(pieces)[i] == [] || Trimmed(TrimAll(pieces)[i])
  {
  }

  /** Filtering out the empty strings of a list of empty or trimmed strings leaves trimmed ones. */
  lemma NonEmptyKeepsTrimmed(xs: seq<string>)
    requires forall i :: 0 <= i < |xs| ==> xs[i] == [] || Trimmed(xs[i])
    ensures forall k :: 0 <= k < |NonEmpty(xs)| ==> Trimmed(NonEmpty(xs)[k])
  {
    forall k | 0 <= k < |NonEmpty(xs)|
      ensures Trimmed(NonEmpty(xs)[k])
    {
      var i :| 0 <= i < |xs| && xs[i] == NonEmpty(xs)[k];
    }
  }

  /** A non-blank preamble before the first `"Question:"` becomes the first block. */
  lemma PreambleIsFirstBlock(text: string)
    requires !AllSpace(Split(StripLeadingNumber(text), QuestionMarker)[0])
    ensures |Blocks(text)| > 0
    ensures Blocks(text)[0] == Trim(Split(StripLeadingNumber(text), QuestionMarker)[0])
  {
    FirstPieceKept(Split(StripLeadingNumber(text), QuestionMarker));
  }

  /** Of any pieces whose first is not blank, the first kept one is the first, trimmed. */
  lemma FirstPieceKept(parts: seq<string>)
    requires |parts| > 0 && !AllSpace(parts[0])
    ensures |NonEmpty(TrimAll(parts))| > 0
    ensures NonEmpty(TrimAll(parts))[0] == Trim(parts[0])
  {
    var trimmed := TrimAll(parts);
    var head := trimmed[0];
    assert head == Trim(parts[0]) && head != [];
    assert trimmed == [head] + trimmed[1..];
    NonEmptyAppend([head], trimmed[1..]);
    NonEmptySingle(head);
  }

  /** Without `"Question:"` the split has one piece, the whole text. */
  lemma SingleBlockIfNoMarker(t: string)
    requires !Contains(t, QuestionMarker)
    ensures Split(t, QuestionMarker) == [t]
  {
    SplitSeparates(t, QuestionMarker);
    SplitHead(t, QuestionMarker);
  }

  /** A text without any `"Question:"` that is not blank is one block: the trimmed text. */
  lemma SingleBlockWithoutMarker(text: string)
    requires !Contains(StripLeadingNumber(text), QuestionMarker)
    requires !AllSpace(StripLeadingNumber(text))
    ensures Blocks(text) == [Trim(StripLeadingNumber(text))]
  {
    var cleaned := StripLeadingNumber(text);
    SingleBlockIfNoMarker(cleaned);
    assert TrimAll([cleaned]) == [Trim(cleaned)];
    NonEmptySingle(Trim(cleaned));
  }

  /** `const [question, ...rest] = block.split("ANSWER:"); const answer = rest.join("ANSWER:")`. */
  function QuestionAndAnswer(block: string): (qa: (string, string))
    ensures !Contains(qa.0, AnswerMarker)
  {
    var parts := Split(block, AnswerMarker);
    (parts[0], Join(parts[1..], AnswerMarker))
  }

  /**
   * The question is the text before the first `"ANSWER:"` and, when there is
   * one, question, `"ANSWER:"` and answer make up the block again; without
   * one the question is the whole block and the answer is empty.
   */
  lemma QuestionAndAnswerSplits(block: string)
    ensures !Contains(QuestionAndAnswer(block).0, AnswerMarker)
    ensures IndexOf(block, AnswerMarker, 0).Some? ==>
              QuestionAndAnswer(block).0 == block[..IndexOf(block, AnswerMarker, 0).value]
    ensures Contains(block, AnswerMarker) ==>
              QuestionAndAnswer(block).0 + AnswerMarker + QuestionAndAnswer(block).1 == block
    ensures !Contains(block, AnswerMarker) ==>
              QuestionAndAnswer(block).0 == block && QuestionAndAnswer(block).1 == ""
  {
    var parts := Split(block, AnswerMarker);
    JoinSplit(block, AnswerMarker);
    SplitSeparates(block, AnswerMarker);
    SplitHead(block, AnswerMarker);
    assert |parts| > 1 ==> Join(parts, AnswerMarker) == parts[0] + AnswerMarker + Join(parts[1..], AnswerMarker);
  }

  /** The card for one block: `question.trim()` and `answer?.trim()`. */
  function MakeCard(block: string, number: nat): (card: QaCard)
    ensures card.number == number
    ensures card.question == [] || Trimmed(card.question)
    ensures card.answer == [] || Trimmed(card.answer)
  {
    var qa := QuestionAndAnswer(block);
    QaCard(number, Trim(qa.0), Trim(qa.1))
  }

  /** `blocks.map((block, i) => ...)`: block `k` becomes the card labelled `Q{k + 1}`. */
  function Cards(blocks: seq<string>): (cards: seq<QaCard>)
    ensures |cards| == |blocks|
    ensures forall k :: 0 <= k < |cards| ==> cards[k] == MakeCard(blocks[k], k + 1) && cards[k].number == k + 1
  {
    seq(|blocks|, k requires 0 <= k < |blocks| => MakeCard(blocks[k], k + 1))
  }

  /** The cards the renderer shows for `text`. */
  function Parse(text: string): (cards: seq<QaCard>)
    ensures |cards| == |Blocks(text)|
    ensures forall k :: 0 <= k < |cards| ==> cards[k].number == k + 1
  {
    Cards(Blocks(text))
  }

  /** Neither part of the card holds `"Question:"`, and its question holds no `"ANSWER:"`. */
  predicate MarkersApart(card: QaCard) {
    !Contains(card.question, AnswerMarker)
    && !Contains(card.question, QuestionMarker)
    && !Contains(card.answer, QuestionMarker)
  }

  /** A card made from a block without `"Question:"` holds no marker where it should not. */
  lemma CardKeepsAbsence(block: string, number: nat)
    requires !Contains(block, QuestionMarker)
    ensures MarkersApart(MakeCard(block, number))
  {
    var qa := QuestionAndAnswer(block);
    QuestionAndAnswerSplits(block);
    PiecesKeepAbsence(block, qa.0, qa.1);
    TrimKeepsAbsence(qa.0, AnswerMarker);
    TrimKeepsAbsence(qa.0, QuestionMarker);
    TrimKeepsAbsence(qa.1, QuestionMarker);
  }

  /** Every card made from blocks without `"Question:"` keeps the markers apart. */
  lemma CardsKeepMarkersApart(blocks: seq<string>)
    requires forall k :: 0 <= k < |blocks| ==> !Contains(blocks[k], QuestionMarker)
    ensures forall k :: 0 <= k < |Cards(blocks)| ==> MarkersApart(Cards(blocks)[k])
  {
    forall k | 0 <= k < |Cards(blocks)|
      ensures MarkersApart(Cards(blocks)[k])
    {
      CardKeepsAbsence(blocks[k], k + 1);
    }
  }

  /** The same for the cards of any text. */
  lemma ParsedCardsKeepMarkersApart(text: string)
    ensures forall k :: 0 <= k < |Parse(text)| ==> MarkersApart(Parse(text)[k])
  {
    BlocksSeparated(text);
    CardsKeepMarkersApart(Blocks(text));
  }

  /** Both halves of a block lack `"Question:"` when the block does. */
  lemma PiecesKeepAbsence(block: string, q: string, a: string)
    requires (q, a) == QuestionAndAnswer(block)
    requires !Contains(block, QuestionMarker)
    ensures !Contains(q, QuestionMarker) && !Contains(a, QuestionMarker)
  {
    QuestionAndAnswerSplits(block);
    if Contains(block, AnswerMarker) {
      assert block == q + AnswerMarker + a;
      if Contains(q, QuestionMarker) {
        assert block[0..|q|] == q;
        InfixContains(block, 0, |q|, QuestionMarker);
      }
      if Contains(a, QuestionMarker) {
        assert block[|q| + |AnswerMarker|..|block|] == a;
        InfixContains(block, |q| + |AnswerMarker|, |block|, QuestionMarker);
      }
    }
  }

  /** Empty or all-blank text gives no cards. */
  lemma {:induction false} BlankTextHasNoCards(text: string)
    requires AllSpace(text)
    ensures Blocks(text) == [] && Parse(text) == []
  {
    assert !StartsWithNumbering(text);
    StripUnnumbered(text);
    forall k | 0 <= k <= |text| - |QuestionMarker| ensures !OccursAt(text, QuestionMarker, k) {
      assert text[k..k + |QuestionMarker|][0] == text[k];
    }
    SingleBlockIfNoMarker(text);
    assert TrimAll([text]) == [Trim(text)];
    NonEmptySingle(Trim(text));
  }
}
