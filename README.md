# AI Question Generator: a Dafny model

This project models the core of a small Streamlit app that generates exam
questions for the Singapore PSLE syllabus (Math or Science, multiple-choice or
open-ended) with a language model. The core pieces are:

- **Loading references.** The app reads the reference questions from a
  spreadsheet column and picks a random selection of them.
- **Building the prompt.** It builds a system message and a user message that
  show the model the block layout it must answer in, and list the reference
  questions.
- **Retry loop.** It calls the model up to five times. Each attempt asks for
  the questions still missing.
- **Parsing.** It reads the reply back with a regular expression, one record
  per `[Reference: n]` block.
- **Session.** It keeps the generated questions in a per-user session. The
  user steps through them, checks multiple-choice answers and has open-ended
  answers graded.

Modules, one file each:

- `Wrappers`: `Option`.
- `Seqs`: regrouping facts about sequence concatenation, used by the proofs.
- `Text`: Python's `str.strip()` whitespace set, ASCII case folding, and
  decimal rendering of integers.
- `Regex`: a backtracking matcher for the fragment of Python `re` that the two
  parser patterns use, compiled with `IGNORECASE | DOTALL`. This covers
  greedy `\s*` and `\d+`, lazy `.*?`, and the `(?=\n\[Reference:|\Z)`
  lookahead. It also models `findall`.
- `Parser`: the question records and `parse_generated_questions`.
- `Layout`: rendering records in the block layout. It proves that parsing the
  rendering gives the records back.
- `Prompt`: `format_prompt_for_generation`. It proves that the example block in
  the system message is read by the parser as one question.
- `Loader`: `load_and_select_questions`, with the spreadsheet passed in as a
  value.
- `Generation`: a specification of the retry loop, given as the sequence of
  attempts it makes.
- `Grading`: the multiple-choice answer check, both as written and as
  evidently intended.
- `Session`: the session state as a class, with the handlers, the index reset
  on display, `process_generation_loop` as an imperative loop proved against
  `Generation`, and the Generate button of `main`.

Inputs stand in for the language model, the random generator and the
spreadsheet file:

- The model is a function from (attempt number, prompts) to a `Reply`. A reply
  holds optional text and a token count.
- The random choices are sequences of picks.
- The file is a `Sheet` value: missing, unreadable, or a map of columns.

## Model

| member | source | states |
|---|---|---|
| Text.Strip | streamlit_app.py:189-194 | `strip()` leaves no whitespace at either end and never lengthens a field |
| Text.StripIsSlice | streamlit_app.py:189-194 | the stripped field is a slice of the capture with only whitespace cut off around it |
| Text.StrippedIsFixed | streamlit_app.py:189-194 | stripping a stripped field changes nothing |
| Text.ShowNat | streamlit_app.py:145 | a number formatted with `f"{i}"` is a non-empty string of digits with no leading zero |
| Text.ReadShowNat | streamlit_app.py:145 | reading back the digits gives the number |
| Text.LowerAll | streamlit_app.py:385 | `lower()` keeps the length and each letter up to case, and leaves no upper-case ASCII letter |
| Regex.FindAll | streamlit_app.py:184 | `findall` as a scan from left to right: every match lies in the text after the start position and carries one group per capture group of the pattern; FindAllHits, FindAllOrdered, FindAllLeftmost and FindAllGaps pin the whole scan down |
| Regex.FindAllHits | streamlit_app.py:184 | every match `findall` reports is the backtracking engine's match at its start |
| Regex.FindAllOrdered | streamlit_app.py:184 | the matches come in text order and do not overlap |
| Regex.FindAllLeftmost | streamlit_app.py:184 | no match starts before the first one reported |
| Regex.FindAllGaps | streamlit_app.py:184 | no match starts in a gap between two reported matches, or after the last one |
| Regex.LazyStopsAtFirst | streamlit_app.py:172-180 | a lazy `(.*?)` stops at the first position from which the rest of the pattern matches, and captures the text it skipped |
| Regex.GreedyWitness | streamlit_app.py:171-180 | a greedy `\s*` or `\d+` succeeds only if the rest of the pattern matches after some run length it tried |
| Regex.NoBracketNoMatch | streamlit_app.py:171 | a pattern that begins with `[` matches nowhere in text without `[` |
| Parser.BlockPattern | streamlit_app.py:170-183 | the block pattern is anchored, starts at `[` and has one capturing group per label |
| Parser.PatternFor | streamlit_app.py:168-206 | the pattern for either question type is anchored, starts at `[` and has one capturing group per label of that type |
| Parser.ToRecord | streamlit_app.py:186-195 | an MCQ record holds option keys exactly A to D, and its fields are the given values in label order |
| Parser.RecordOf | streamlit_app.py:185-216 | the record built from one match has the layout's type tag, and every field is the stripped capture of its label |
| Parser.RecordOfStripped | streamlit_app.py:189-215 | every field of a parsed record is already stripped |
| Parser.Parse | streamlit_app.py:165-218 | definition: the records built from the matches `findall` reports for the question type's pattern; ParseFollowsMatches, ParsedRecordsAreTyped, BlockStartsWithHeader and Layout.ParseRender state what it returns |
| Parser.ParseGeneratedQuestions | streamlit_app.py:165-218 | the loop appends one record per match and returns the parser's result, whichever list of earlier questions it is given |
| Parser.ParseFollowsMatches | streamlit_app.py:184-216 | there is one record per match; record k holds the stripped groups of match k; the matches are the engine's, in text order, with no match skipped before, between or after them |
| Parser.ParsedRecordsAreTyped | streamlit_app.py:185-216 | every parsed record has its layout's type and keys, and only stripped fields |
| Parser.BlockStartsWithHeader | streamlit_app.py:171 | a block matches only where `[Reference: ` is followed by digits and `]` |
| Parser.NoHeaderNoRecords | streamlit_app.py:168-218 | a reply that has no `[Reference: n]` header anywhere gives no records |
| Layout.ParseRender | streamlit_app.py:165-218 | records whose fields fit on one line, rendered as numbered blocks and followed by any whitespace, parse back to exactly those records |
| Prompt.SubjectName | streamlit_app.py:94-99 | `"math"` names the subject Math and every other key names Science |
| Prompt.FormatPromptForGeneration | streamlit_app.py:92-148 | definition: the system message and the user message for the references, subject, count, topic and type; SystemMessageExample, UserMessageLists and Session.SubjectRoundTrip state what they contain |
| Prompt.ListingSnoc | streamlit_app.py:143-147 | appending one line per reference question gives the listing, with each question numbered from 0 in order |
| Prompt.UserMessageLists | streamlit_app.py:143-148 | the user message is the introduction, then reference question k on its own line as `k. text`, then the request naming the count, the type and the topic |
| Prompt.ExampleRecord | streamlit_app.py:107-118 | the prescribed MCQ example states its answer as `(B)` |
| Prompt.ExampleIsBlock | streamlit_app.py:107-130 | the example block is the rendering of the example question as block 0, followed by a line break |
| Prompt.ExampleWellFormed | streamlit_app.py:107-130 | the example question fits the layout whenever the topic fits on one line |
| Prompt.ExampleParses | streamlit_app.py:107-130 | a reply that repeats the example block parses to exactly the example question |
| Prompt.SystemMessageExample | streamlit_app.py:132-141 | the system message is the lead text, then the example block, then the tail, and that block parses to the example question |
| Loader.Present | streamlit_app.py:55 | `dropna` never adds rows |
| Loader.PresentKeeps | streamlit_app.py:55 | a value survives `dropna` exactly when some non-empty cell holds it |
| Loader.SelectionCount | streamlit_app.py:56-64 | an empty column is an error; otherwise all the rows or the requested number, whichever is less |
| Loader.Sample | streamlit_app.py:67 | sampling without replacement gives exactly n values, drawn from the pool as a sub-multiset |
| Loader.LoadAndSelect | streamlit_app.py:39-68 | there is a result exactly when the file is read, has the column, and has a value in it; the result has min(available, requested) values, drawn without replacement |
| Generation.SubsetSize | streamlit_app.py:229 | the number of references is min(50, 5 × needed, available) |
| Generation.NextAttempt | streamlit_app.py:228-245 | definition of one attempt from the questions generated so far and the attempts counted; NextAttemptAsks states what it asks for, sends and keeps |
| Generation.Run | streamlit_app.py:227-248 | definition of the attempts the while loop makes from a state; RunBounded, RunAttempts and RunEnds state its properties, and Session.SessionState.RetryLoop is proved to make exactly these attempts |
| Generation.Loop | streamlit_app.py:220-250 | definition: no attempts when loading fails, otherwise the run of NextAttempt from nothing generated and no attempt counted; LoopRunsLoop ties it to the attempts of Session.SessionState.ProcessGenerationLoop |
| Generation.RunBounded | streamlit_app.py:227-248 | the loop makes at most MAX_RETRIES (line 19), five, attempts |
| Generation.RunAttempts | streamlit_app.py:227-248 | attempt k is taken from the questions generated before it, while too few exist and fewer than five attempts are counted; every attempt but the last got a reply with text |
| Generation.RunEnds | streamlit_app.py:227-248 | the loop ends only when enough questions exist, five attempts are counted, or the last reply had no text |
| Generation.NextAttemptAsks | streamlit_app.py:228-239 | an attempt asks for the questions still missing and shows min(50, 5 × needed, available) references drawn from the series without replacement (equal question texts in two rows may both appear). It sends the prompts built from them, and keeps what the parser reads from a reply with text |
| Generation.Advance | streamlit_app.py:235-248 | one turn takes the attempt the run takes next and adds its batch and its tokens to the running totals. After a reply with text the loop is still part way through the run; after a reply without text the totals are those of the whole run |
| Generation.Finish | streamlit_app.py:227 | when the loop condition fails, the attempts made so far are the whole run, and the totals are the run's |
| Generation.LoopRunsLoop | streamlit_app.py:220-250 | a run taken by any step function that agrees with NextAttempt is exactly Loop's run: none when loading fails, otherwise the attempts of the while loop |
| Grading.RadioOptions | streamlit_app.py:297-302 | there are four options, and option i starts with letter i of ABCD |
| Grading.LetterCheckAsWritten | streamlit_app.py:311-317 | as written: nothing is shown without a chosen option; otherwise IndexError exactly when the stored answer is empty, and Correct exactly when the option's first character equals the answer's first character |
| Grading.ParenthesisedAnswerNeverMatches | streamlit_app.py:311-317 | as written, an answer stored as `(X)` never matches any option |
| Grading.PrescribedAnswerNeverCorrect | streamlit_app.py:311-317 | a reply that follows the prescribed example (lines 107-118) gives answer `(B)`, and the check as written marks all four options incorrect |
| Grading.EmptyAnswerFails | streamlit_app.py:313 | as written, an empty stored answer makes the check fail on `[0]` |
| Grading.AnswerLetter | streamlit_app.py:313 | the letter read from an answer is never the opening parenthesis: an answer not opening with `(` names its first character, `(X...` names X, and only an empty answer, a lone `(` or `((...` names none |
| Grading.AnswerLetterForms | streamlit_app.py:313 | both `(X)...` and `X...` name the letter X |
| Grading.CheckAnswer | streamlit_app.py:311-317 | corrected: never fails; nothing is shown without a chosen option; otherwise Correct exactly when the stored answer names the letter the option starts with |
| Grading.CheckAnswerCorrectIff | streamlit_app.py:311-317 | corrected: option k is correct exactly when the stored answer names letter k; the check never fails |
| Grading.CheckAnswerAgrees | streamlit_app.py:311-317 | for an answer that does not start with `(`, the corrected check equals the one as written |
| Grading.PrescribedAnswerGraded | streamlit_app.py:311-317 | corrected: for the prescribed example, option B and only B is correct |
| Session.SessionState.constructor | streamlit_app.py:22-35 | a fresh session has no tokens and no questions, index 0, nothing checked, no feedback, and type MCQ |
| Session.SessionState.NextQ | streamlit_app.py:255-258 | moves one question on and clears the checked flag and the feedback; from inside the list, short of the last question, the index stays in the list |
| Session.SessionState.PrevQ | streamlit_app.py:260-264 | does nothing at the first question; otherwise moves one back and clears both; an index in range stays in range |
| Session.SessionState.CheckAnswerHandler | streamlit_app.py:266-267 | only sets the checked flag |
| Session.SessionState.GradeAnswerHandler | streamlit_app.py:269-274 | stores the feedback `grade_student_answer` returns and sets the checked flag |
| Session.SessionState.SubmitAndGrade | streamlit_app.py:328-332 | an empty answer changes nothing; otherwise the feedback is stored |
| Session.SessionState.ClampIndex | streamlit_app.py:280-281 | an index at or past the end becomes 0 and any other index is kept, so a non-empty list is always indexed in range |
| Session.SessionState.DisplayQuestionSession | streamlit_app.py:276-346 | the displayed index is in range; a checked MCQ question shows the verdict of the check as written (LetterCheckAsWritten) on the chosen option; Prev is offered exactly past the first question, and Next exactly before the last |
| Session.SessionState.ProcessGenerationLoop | streamlit_app.py:220-250 | the attempts it makes are the loop's (LoopRuns, equal to Loop by LoopRunsLoop), none when loading fails; the result is the concatenation of their batches, all questions grow by that result, and tokens grow by their tokens |
| Session.SessionState.RetryLoop | streamlit_app.py:227-250 | the while loop yields exactly the attempts of the specification run: its result, all questions and the tokens as above |
| Session.SessionState.AttemptOnce | streamlit_app.py:228-245 | one attempt adds its reply's tokens, and its parsed batch to the result and to all questions; it reports whether the reply had text |
| Session.CallForMissing | streamlit_app.py:228-235 | the reply the body of the loop obtains is the one of the attempt the specification takes next |
| Session.SessionState.Generate | streamlit_app.py:372-390 | the index, the flag and the feedback are always reset. Without an API key, tokens and the latest list are reset too. With a key, the loop's attempts on the subject's sheet and the lower-cased subject are made; the tokens are theirs, the latest list is their questions, and all questions grow by them |
| Session.SubjectRoundTrip | streamlit_app.py:385 | the subject chosen in the sidebar, lower-cased, is named back in the prompts as chosen |

## Left out

- Streamlit rendering is not modelled. That covers headers, captions, info,
  warning and success messages, spinners, columns and the Markdown output,
  and also `st.rerun`. None of it changes the modelled state.
- The language model is not modelled. `call_gemini_api` becomes the `api`
  input.
  - A call that raises becomes a reply with no text and 0 tokens, because
    that is what the source returns then.
  - The configuration (model name and temperature) and `genai.configure` are
    not modelled.
- `grade_student_answer` is not modelled. Its feedback text is a parameter of
  `GradeAnswerHandler` and `SubmitAndGrade`. The grading prompt and the
  error text are not modelled.
- The spreadsheet file and pandas are not modelled. The file becomes a
  `Sheet`: missing, unreadable, or a map from column names to cells. Cells
  are strings or empty. Numbers in a column are not modelled.
- Randomness is not modelled. `DataFrame.sample` becomes `Sample` over a
  sequence of picks: each pick chooses one of the rows not yet taken. Which
  permutation pandas returns for a given seed is not modelled.
- `time.sleep(3)` has no effect on the state, so it is not modelled.
- `initialize_session_state` sets only the keys that are missing. The
  constructor models the first run, where all of them are missing.
- The sidebar widgets of `main` are not modelled: the topic lists and the
  1 to 10 bounds of the number input. `Generate` takes the subject, the topic,
  the type and the count as parameters, and places no bound on the count.
- The Open-Ended display of the model answer and the feedback is not
  modelled; it is output only.
- Case folding and digits are ASCII only: case-insensitive matching and
  `lower()` fold the letters A to Z only, and `\d` means the digits 0 to 9.
  Python's full Unicode case folding and Unicode digits are not modelled.
  Whitespace is not limited to ASCII: `\s` and `strip()` both use Python's
  full `str.isspace()` set.
- Prompt.OutputFormatExample: the Open-Ended example answer line is written
  as three concatenated literals, `"Answer: "`, the placeholder and `"\n"`.
  They join to the same string as the source's single literal.
- Session.SessionState.RetryLoop: the while loop of `process_generation_loop`
  lives in its own method, and the body of each turn lives in `AttemptOnce`
  and `CallForMissing`. The statements are the source's, in its order.
  Loading and the early return stay in `ProcessGenerationLoop`.

## Findings

| source | as written | input that shows it | evidently intended | confidence | as-written member | corrected member |
|---|---|---|---|---|---|---|
| streamlit_app.py:311-317 | The check compares the first character of the chosen option with the first character of the stored answer. But the prompt (line 116) tells the model to write the answer as `Answer: (B)`, so the stored answer starts with `(`. | Any reply that repeats the prescribed MCQ example: the stored answer is `(B)`, and every option from `A) ...` to `D) ...` is graded incorrect. | Compare the option letter with the letter the answer names, skipping an opening parenthesis. | not executed | Grading.PrescribedAnswerNeverCorrect | Grading.PrescribedAnswerGraded |
| streamlit_app.py:313 | `item.get('answer', '?')[0]` indexes the stored answer. The `'?'` default never applies, because every MCQ record has an `answer` key, and an empty answer raises IndexError. | The last block of a reply with an empty `Answer:` line, checked with any option chosen. (In an earlier block the match runs on into the next block instead.) | Treat an answer without a letter as naming no option, instead of failing. | not executed | Grading.EmptyAnswerFails | Grading.CheckAnswerCorrectIff |
