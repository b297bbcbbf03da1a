/**
 * The per-user session of the application: the generated questions, the
 * token count, and which question is shown with what feedback; the
 * navigation and answer handlers that update it; and the generation loop
 * that fills it.
 */
module Session {
  import opened Wrappers
  import opened Text
  import opened Parser
  import opened Prompt
  import opened Loader
  import opened Generation
  import opened Grading

  class SessionState {
    var totalTokensUsed: nat
    var allGeneratedQuestions: seq<Record>
    var latestGeneratedList: seq<Record>
    var currentIndex: int
    var answerChecked: bool
    var gradingFeedback: Option<string>
    var questionType: string

    /** The index of the shown question never goes negative. */
    predicate Valid()
      reads this
    {
      currentIndex >= 0
    }

    /** The index names a question of the latest list. */
    predicate InRange()
      reads this
    {
      0 <= currentIndex < |latestGeneratedList|
    }

    /** The session's starting values. */
    constructor ()
      ensures Valid()
      ensures totalTokensUsed == 0 && allGeneratedQuestions == [] && latestGeneratedList == []
      ensures currentIndex == 0 && !answerChecked && gradingFeedback == None && questionType == "MCQ"
    {
      totalTokensUsed := 0;
      allGeneratedQuestions := [];
      latestGeneratedList := [];
      currentIndex := 0;
      answerChecked := false;
      gradingFeedback := None;
      questionType := "MCQ";
    }

    /** Next question: one index further on, with the answer state cleared. */
    method NextQ()
      requires Valid()
      modifies this`currentIndex, this`answerChecked, this`gradingFeedback
      ensures Valid()
      ensures currentIndex == old(currentIndex) + 1 && !answerChecked && gradingFeedback == None
      ensures old(currentIndex) < |latestGeneratedList| - 1 ==> InRange()
    {
      currentIndex := currentIndex + 1;
      answerChecked := false;
      gradingFeedback := None;
    }

    /** Previous question: nothing at the first one, otherwise one index back with the answer state cleared. */
    method PrevQ()
      requires Valid()
      modifies this`currentIndex, this`answerChecked, this`gradingFeedback
      ensures Valid()
      ensures old(currentIndex) == 0 ==>
        currentIndex == 0 && answerChecked == old(answerChecked) && gradingFeedback == old(gradingFeedback)
      ensures old(currentIndex) > 0 ==>
        currentIndex == old(currentIndex) - 1 && !answerChecked && gradingFeedback == None
      ensures old(InRange()) ==> InRange()
    {
      if currentIndex > 0 {
        currentIndex := currentIndex - 1;
        answerChecked := false;
        gradingFeedback := None;
      }
    }

    /** The check button only marks the answer as checked. */
    method CheckAnswerHandler()
      modifies this`answerChecked
      ensures answerChecked
    {
      answerChecked := true;
    }

    /** Stores the feedback that `grade_student_answer` returns and marks the answer as checked. */
    method GradeAnswerHandler(feedback: string)
      modifies this`gradingFeedback, this`answerChecked
      ensures gradingFeedback == Some(feedback) && answerChecked
    {
      gradingFeedback := Some(feedback);
      answerChecked := true;
    }

    /** The grade button: an empty answer is not sent for grading. */
    method SubmitAndGrade(userText: string, feedback: string)
      modifies this`gradingFeedback, this`answerChecked
      ensures userText == [] ==> gradingFeedback == old(gradingFeedback) && answerChecked == old(answerChecked)
      ensures userText != [] ==> gradingFeedback == Some(feedback) && answerChecked
    {
      if userText != [] {
        GradeAnswerHandler(feedback);
      }
    }

    /** The display resets an index at or past the end of the list to the first question. */
    method ClampIndex()
      requires Valid()
      modifies this`currentIndex
      ensures Valid()
      ensures currentIndex == if old(currentIndex) >= |latestGeneratedList| then 0 else old(currentIndex)
      ensures latestGeneratedList != [] ==> InRange()
    {
      if currentIndex >= |latestGeneratedList| {
        currentIndex := 0;
      }
    }

    /**
     * One display of the current question, shown only when the latest list
     * has questions: the index after the reset, the verdict the check as
     * written gives on the chosen option once the answer is checked (MCQ
     * questions only), and which navigation buttons are offered.
     */
    method DisplayQuestionSession(selectedOption: Option<string>)
      returns (index: nat, verdict: Verdict, prevShown: bool, nextShown: bool)
      requires Valid() && latestGeneratedList != []
      modifies this`currentIndex
      ensures InRange() && index == currentIndex
      ensures currentIndex == if old(currentIndex) >= |latestGeneratedList| then 0 else old(currentIndex)
      ensures var item := latestGeneratedList[index];
        verdict == if item.Mcq? && answerChecked then LetterCheckAsWritten(selectedOption, item.answer) else Unanswered
      ensures prevShown <==> index > 0
      ensures nextShown <==> index < |latestGeneratedList| - 1
    {
      ClampIndex();
      index := currentIndex;
      var item := latestGeneratedList[index];
      verdict := Unanswered;
      if item.Mcq? && answerChecked {
        verdict := LetterCheckAsWritten(selectedOption, item.answer);
      }
      prevShown := index > 0;
      nextShown := index < |latestGeneratedList| - 1;
    }

    /**
     * `process_generation_loop`: load the references; nothing is generated
     * when that fails, otherwise the attempts of the loop are made.
     */
    method ProcessGenerationLoop(sheet: Sheet, loadPicks: seq<nat>, api: (nat, Prompts) -> Reply,
                                 picks: nat -> seq<nat>, subjectLower: string, numToGenerate: nat,
                                 specificTopic: string, qType: string)
      returns (finalGeneratedList: seq<Record>, ghost attempts: seq<Attempt>)
      modifies this`totalTokensUsed, this`allGeneratedQuestions
      ensures LoopRuns(api, picks, LoadAndSelect(sheet, QuestionsToSelect, QuestionColumnName, loadPicks),
                       Setting(subjectLower, numToGenerate, specificTopic, qType), attempts)
      ensures finalGeneratedList == Generated(attempts)
      ensures allGeneratedQuestions == old(allGeneratedQuestions) + finalGeneratedList
      ensures totalTokensUsed == old(totalTokensUsed) + Tokens(attempts)
    {
      var questionsSeries := LoadAndSelect(sheet, QuestionsToSelect, QuestionColumnName, loadPicks);
      if questionsSeries.None? {
        assert allGeneratedQuestions + [] == allGeneratedQuestions;
        return [], [];
      }
      var s := Setting(subjectLower, numToGenerate, specificTopic, qType);
      StepSteps(api, picks, questionsSeries.value, s);
      ghost var step := Step(api, picks, questionsSeries.value, s);
      finalGeneratedList := RetryLoop(api, picks, questionsSeries.value, s, step);
      attempts := Run(step, s.numToGenerate, [], 0);
    }

    /**
     * The loop of `process_generation_loop`: while questions are missing and
     * fewer than five attempts are counted, make one more attempt; a reply
     * without text ends the loop.
     */
    method RetryLoop(api: (nat, Prompts) -> Reply, picks: nat -> seq<nat>, series: seq<string>, s: Setting,
                     ghost step: (seq<Record>, nat) -> Attempt)
      returns (finalGeneratedList: seq<Record>)
      requires Steps(step, api, picks, series, s)
      modifies this`totalTokensUsed, this`allGeneratedQuestions
      ensures var attempts := Run(step, s.numToGenerate, [], 0);
        && finalGeneratedList == Generated(attempts)
        && allGeneratedQuestions == old(allGeneratedQuestions) + finalGeneratedList
        && totalTokensUsed == old(totalTokensUsed) + Tokens(attempts)
    {
      finalGeneratedList := [];
      var retriesUsed := 0;
      ghost var whole := Run(step, s.numToGenerate, [], 0);
      ghost var done: seq<Attempt> := [];
      ghost var stopped := false;
      PartWayStart(step, s.numToGenerate, allGeneratedQuestions, totalTokensUsed);
      while |finalGeneratedList| < s.numToGenerate && retriesUsed < MaxRetries
        invariant retriesUsed == |done|
        invariant Progress(step, s.numToGenerate, whole, done, finalGeneratedList,
                           old(allGeneratedQuestions), allGeneratedQuestions, old(totalTokensUsed), totalTokensUsed)
        decreases MaxRetries - retriesUsed
      {
        ghost var got, all, t := finalGeneratedList, allGeneratedQuestions, totalTokensUsed;
        var generatedText;
        finalGeneratedList, generatedText := AttemptOnce(api, picks, series, s, step, finalGeneratedList, retriesUsed);
        Advance(step, s.numToGenerate, whole, done, got, old(allGeneratedQuestions), all, old(totalTokensUsed), t,
                finalGeneratedList, allGeneratedQuestions, totalTokensUsed);
        done := done + [step(got, retriesUsed)];
        if !generatedText {
          stopped := true;
          break;
        }
        retriesUsed := retriesUsed + 1;
      }
      if !stopped {
        Finish(step, s.numToGenerate, whole, done, finalGeneratedList,
               old(allGeneratedQuestions), allGeneratedQuestions, old(totalTokensUsed), totalTokensUsed);
      }
    }

    /**
     * One attempt of the loop: request the missing questions, add the
     * reply's tokens to the session's count and, when the reply has text,
     * add what the parser reads from it to the result and to all questions
     * of the session. `generatedText` tells whether the reply had text.
     */
    method AttemptOnce(api: (nat, Prompts) -> Reply, picks: nat -> seq<nat>, series: seq<string>, s: Setting,
                       ghost step: (seq<Record>, nat) -> Attempt, got: seq<Record>, tries: nat)
      returns (finalGeneratedList: seq<Record>, generatedText: bool)
      requires Steps(step, api, picks, series, s)
      requires |got| < s.numToGenerate
      modifies this`totalTokensUsed, this`allGeneratedQuestions
      ensures var a := step(got, tries);
        && generatedText == HasText(a.reply)
        && finalGeneratedList == got + a.batch
        && allGeneratedQuestions == old(allGeneratedQuestions) + a.batch
        && totalTokensUsed == old(totalTokensUsed) + a.reply.tokens
    {
      finalGeneratedList := got;
      var reply;
      ghost var a;
      reply, a := CallForMissing(api, picks, series, s, step, got, tries);
      totalTokensUsed := totalTokensUsed + reply.tokens;
      generatedText := HasText(reply);
      if generatedText {
        var newlyParsed := ParseGeneratedQuestions(reply.text.value, allGeneratedQuestions, s.questionType);
        if newlyParsed != [] {
          finalGeneratedList := finalGeneratedList + newlyParsed;
          allGeneratedQuestions := allGeneratedQuestions + newlyParsed;
        } else {
          assert got + newlyParsed == got;
          assert allGeneratedQuestions + newlyParsed == allGeneratedQuestions;
        }
      } else {
        assert got + [] == got;
        assert allGeneratedQuestions + [] == allGeneratedQuestions;
      }
    }

    /**
     * The "Generate" button: reset the session's generation state, then, with
     * an API key, run the generation loop on the subject's sheet and keep
     * its result when it is not empty.
     */
    method Generate(apiKey: string, mathSheet: Sheet, scienceSheet: Sheet, loadPicks: seq<nat>,
                    api: (nat, Prompts) -> Reply, picks: nat -> seq<nat>, subjectName: string,
                    selectedTopic: string, qType: string, numToGenerate: nat)
      returns (ghost attempts: seq<Attempt>)
      requires Valid()
      modifies this
      ensures Valid() && currentIndex == 0 && !answerChecked && gradingFeedback == None
      ensures questionType == old(questionType)
      ensures apiKey == [] ==>
        totalTokensUsed == 0 && latestGeneratedList == [] && allGeneratedQuestions == old(allGeneratedQuestions)
      ensures apiKey != [] ==>
        var sheet := if subjectName == "Math" then mathSheet else scienceSheet;
        var loaded := LoadAndSelect(sheet, QuestionsToSelect, QuestionColumnName, loadPicks);
        && LoopRuns(api, picks, loaded, Setting(LowerAll(subjectName), numToGenerate, selectedTopic, qType), attempts)
        && totalTokensUsed == Tokens(attempts)
        && latestGeneratedList == Generated(attempts)
        && allGeneratedQuestions == old(allGeneratedQuestions) + Generated(attempts)
    {
      totalTokensUsed := 0;
      latestGeneratedList := [];
      currentIndex := 0;
      answerChecked := false;
      gradingFeedback := None;
      attempts := [];
      if apiKey != [] {
        var sheet := if subjectName == "Math" then mathSheet else scienceSheet;
        var subjectLower := LowerAll(subjectName);
        var generatedList;
        generatedList, attempts := ProcessGenerationLoop(sheet, loadPicks, api, picks, subjectLower, numToGenerate,
                                                         selectedTopic, qType);
        if generatedList != [] {
          latestGeneratedList := generatedList;
        }
      }
    }
  }

  /**
   * The request of one turn of the loop: draw the references for the
   * questions still missing, build the prompts for them and call the
   * language model; its reply is the one of the attempt the loop's
   * specification takes.
   */
  method CallForMissing(api: (nat, Prompts) -> Reply, picks: nat -> seq<nat>, series: seq<string>, s: Setting,
                        ghost step: (seq<Record>, nat) -> Attempt, got: seq<Record>, tries: nat)
    returns (reply: Reply, ghost a: Attempt)
    requires Steps(step, api, picks, series, s)
    requires |got| < s.numToGenerate
    ensures a == step(got, tries) && reply == a.reply
    ensures a.batch == if HasText(reply) then Parse(reply.text.value, s.questionType) else []
  {
    var questionsNeeded := s.numToGenerate - |got|;
    var referenceSubset := Sample(series, picks(tries), SubsetSize(questionsNeeded, |series|));
    var prompts := FormatPromptForGeneration(referenceSubset, s.subject, questionsNeeded, s.specificTopic, s.questionType);
    reply := api(tries, prompts);
    a := NextAttempt(api, picks, series, s, got, tries);
  }

  /**
   * The subject chosen in the sidebar, lower-cased for the loop, is named
   * back in the prompts as chosen.
   */
  lemma SubjectRoundTrip(subjectName: string)
    requires subjectName == "Math" || subjectName == "Science"
    ensures SubjectName(LowerAll(subjectName)) == subjectName
  {
    if subjectName == "Math" {
      assert LowerAll(subjectName) == "math";
    } else {
      assert LowerAll(subjectName) != "math" by {
        assert LowerAll(subjectName)[0] == 's';
      }
    }
  }

}
