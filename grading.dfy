/**
 * Checking a multiple-choice answer: the chosen radio option against the
 * answer stored with the question. Two versions: the comparison as the
 * application writes it, and the comparison it evidently intends, which
 * reads the option letter out of an answer written `(B)` as the prompts
 * prescribe.
 */
module Grading {
  import opened Wrappers
  import opened Parser
  import opened Layout
  import opened Prompt

  /** What the answer check shows: nothing, a correct or an incorrect answer, or a failure on an empty answer. */
  datatype Verdict =
    | Unanswered
    | Correct(letter: char)
    | Incorrect(picked: char, correct: char)
    | IndexError

  const Letters: string := "ABCD"

  /** The four radio options of an MCQ question, each its letter, `) ` and the option text. */
  function RadioOptions(options: map<string, string>): (r: seq<string>)
    ensures |r| == 4
    ensures forall i :: 0 <= i < 4 ==> r[i] != [] && r[i][0] == Letters[i]
  {
    ["A) " + OptionText(options, "A"), "B) " + OptionText(options, "B"),
     "C) " + OptionText(options, "C"), "D) " + OptionText(options, "D")]
  }

  /**
   * The check as written: nothing is shown without a chosen option;
   * otherwise the first character of the option is compared with the first
   * character of the stored answer, which fails when the answer is empty.
   */
  function LetterCheckAsWritten(selected: Option<string>, answer: string): (r: Verdict)
    ensures r == Unanswered <==> selected.None? || selected.value == []
    ensures r == IndexError <==> selected.Some? && selected.value != [] && answer == []
    ensures r.Correct? <==> selected.Some? && selected.value != [] && answer != [] && selected.value[0] == answer[0]
  {
    if selected.None? || selected.value == [] then Unanswered
    else if answer == [] then IndexError
    else if selected.value[0] == answer[0] then Correct(answer[0])
    else Incorrect(selected.value[0], answer[0])
  }

  /** An answer written with an opening parenthesis, as in `(B)`, is never matched by any option. */
  lemma ParenthesisedAnswerNeverMatches(options: map<string, string>, answer: string, k: nat)
    requires answer != [] && answer[0] == '(' && k < 4
    ensures LetterCheckAsWritten(Some(RadioOptions(options)[k]), answer) == Incorrect(Letters[k], '(')
  {
  }

  /**
   * A reply that follows the prescribed example block to the letter is
   * parsed into one question whose answer is `(B)`, and the check as
   * written grades every one of its four options incorrect.
   */
  lemma PrescribedAnswerNeverCorrect(specificTopic: string, k: nat)
    requires GoodField(specificTopic) && k < 4
    ensures var rs := Parse(OutputFormatExample(specificTopic, "MCQ"), "MCQ");
      && |rs| == 1 && rs[0].Mcq? && rs[0].answer == "(B)"
      && LetterCheckAsWritten(Some(RadioOptions(rs[0].options)[k]), rs[0].answer).Incorrect?
  {
    ExampleParses(specificTopic, "MCQ");
    var r := ExampleRecord(specificTopic, "MCQ");
    ParenthesisedAnswerNeverMatches(r.options, r.answer, k);
  }

  /** An empty stored answer makes the check as written fail. */
  lemma EmptyAnswerFails(option: string)
    requires option != []
    ensures LetterCheckAsWritten(Some(option), "") == IndexError
  {
  }

  /** The option letter a stored answer names: its first character, or the one after an opening parenthesis. */
  function AnswerLetter(answer: string): (r: Option<char>)
    ensures r.Some? ==> r.value != '('
    ensures answer != [] && answer[0] != '(' ==> r == Some(answer[0])
    ensures |answer| > 1 && answer[0] == '(' && answer[1] != '(' ==> r == Some(answer[1])
    ensures r.None? <==> answer == [] || (answer[0] == '(' && (|answer| == 1 || answer[1] == '('))
  {
    if answer == [] then None
    else if answer[0] == '(' then (if |answer| > 1 && answer[1] != '(' then Some(answer[1]) else None)
    else Some(answer[0])
  }

  /** Both answer forms the prompts and the models use, `(X)...` and `X...`, name the letter X. */
  lemma AnswerLetterForms(c: char, rest: string)
    requires c != '('
    ensures AnswerLetter(['(', c] + rest) == Some(c)
    ensures AnswerLetter([c] + rest) == Some(c)
  {
    assert (['(', c] + rest)[1] == c;
  }

  /** The intended check: the chosen option's letter against the letter the stored answer names. */
  function CheckAnswer(selected: Option<string>, answer: string): (r: Verdict)
    ensures r != IndexError
    ensures r == Unanswered <==> selected.None? || selected.value == []
    ensures r.Correct? <==> selected.Some? && selected.value != [] && AnswerLetter(answer) == Some(selected.value[0])
  {
    if selected.None? || selected.value == [] then Unanswered
    else match AnswerLetter(answer)
      case None => Incorrect(selected.value[0], '?')
      case Some(c) => if selected.value[0] == c then Correct(c) else Incorrect(selected.value[0], c)
  }

  /** Option k is graded correct exactly when the stored answer names its letter. */
  lemma CheckAnswerCorrectIff(options: map<string, string>, answer: string, k: nat)
    requires k < 4
    ensures CheckAnswer(Some(RadioOptions(options)[k]), answer).Correct? <==> AnswerLetter(answer) == Some(Letters[k])
    ensures CheckAnswer(Some(RadioOptions(options)[k]), answer) != IndexError
  {
  }

  /** For an answer that does not open with a parenthesis, the intended check agrees with the one as written. */
  lemma CheckAnswerAgrees(selected: Option<string>, answer: string)
    requires answer != [] && answer[0] != '('
    ensures CheckAnswer(selected, answer) == LetterCheckAsWritten(selected, answer)
  {
  }

  /** The intended check grades the question of the example block right: option B, and only B, is correct. */
  lemma PrescribedAnswerGraded(specificTopic: string, k: nat)
    requires GoodField(specificTopic) && k < 4
    ensures var rs := Parse(OutputFormatExample(specificTopic, "MCQ"), "MCQ");
      && |rs| == 1 && rs[0].Mcq?
      && (CheckAnswer(Some(RadioOptions(rs[0].options)[k]), rs[0].answer).Correct? <==> k == 1)
  {
    ExampleParses(specificTopic, "MCQ");
    BGraded(ExampleRecord(specificTopic, "MCQ"), k);
  }

  lemma BGraded(r: Record, k: nat)
    requires r.Mcq? && r.answer == "(B)" && k < 4
    ensures CheckAnswer(Some(RadioOptions(r.options)[k]), r.answer).Correct? <==> k == 1
  {
    PrescribedLetter();
    CheckAnswerCorrectIff(r.options, r.answer, k);
    assert Letters[k] == 'B' <==> k == 1;
  }

  lemma PrescribedLetter()
    ensures AnswerLetter("(B)") == Some('B')
  {
    AnswerLetterForms('B', ")");
    assert ['(', 'B'] + ")" == "(B)";
  }

}
