/**
 * The two prompts sent for one generation attempt: a system message that
 * names the subject, difficulty and topic and prescribes the block layout by
 * an example block, and a user message that lists the reference questions,
 * numbered from 0, and asks for the new questions.
 */
module Prompt {
  import opened Seqs
  import opened Text
  import opened Parser
  import opened Layout

  datatype Prompts = Prompts(system: string, user: string)

  /** "math" selects Math; every other subject key is treated as Science. */
  function SubjectName(subject: string): (r: string)
    ensures r == "Math" <==> subject == "math"
    ensures r == "Math" || r == "Science"
  {
    if subject == "math" then "Math" else "Science"
  }

  /** Both subject branches set the same difficulty text. */
  const Difficulty: string := "Challenging (PSLE Standard)"

  /** The instruction sentence of the system message for the question type. */
  function Instruction(numToGenerate: nat, questionType: string): string {
    if IsMcqMode(questionType) then
      "Your task is to generate " + ShowNat(numToGenerate) + " new **Multiple-Choice Questions (MCQ)**."
      + "Provide 4 options (A, B, C, D) and one clear reasoning step."
    else
      "Your task is to generate " + ShowNat(numToGenerate) + " new **Open-Ended Questions (Structured)**."
      + "**DO NOT PROVIDE OPTIONS.** Instead, provide a comprehensive 'Model Answer' that includes the key marking points/keywords required."
  }

  /** The example block of the system message for the question type. */
  function OutputFormatExample(specificTopic: string, questionType: string): string {
    if IsMcqMode(questionType) then
      "[Reference: 0]\n"
      + "Question: ...\n"
      + "Difficulty: Hard\n"
      + "Topic: " + specificTopic + "\n"
      + "A) ...\n"
      + "B) ...\n"
      + "C) ...\n"
      + "D) ...\n"
      + "Answer: (B)\n"
      + "Reasoning: ...\n"
    else
      "[Reference: 0]\n"
      + "Question: ...\n"
      + "Difficulty: Hard\n"
      + "Topic: " + specificTopic + "\n"
      + "Answer: " + "(The full model answer with keywords)" + "\n"
  }

  /** The system message that comes before the example block. */
  function SystemLead(subject: string, numToGenerate: nat, specificTopic: string, questionType: string): string {
    "You are an expert **" + SubjectName(subject) + "** tutor in Singapore. "
    + "I will provide reference questions. " + Instruction(numToGenerate, questionType) + "\n\n"
    + "Topic: **" + specificTopic + "**\n"
    + "Difficulty: **" + Difficulty + "**\n\n"
    + "**OUTPUT FORMAT (Strictly Follow):**\n"
    + "Your response must be a plain-text list of blocks. Do not use JSON.\n"
  }

  /** What the system message puts after the example block. */
  const SystemTail: string := "\n" + "\n[Reference: 1]\n..."

  function SystemMessage(subject: string, numToGenerate: nat, specificTopic: string, questionType: string): string {
    SystemLead(subject, numToGenerate, specificTopic, questionType)
    + OutputFormatExample(specificTopic, questionType) + SystemTail
  }

  const UserIntro: string := "Here are the reference questions:\n\n"

  /** The line that lists reference question `q` under number `i`. */
  function Line(i: nat, q: string): string {
    ShowNat(i) + ". " + q + "\n"
  }

  /** The reference questions listed one per line, numbered from `i`. */
  function Listing(refs: seq<string>, i: nat): string
    decreases |refs|
  {
    if refs == [] then [] else Line(i, refs[0]) + Listing(refs[1..], i + 1)
  }

  /** The closing request of the user message. */
  function Request(numToGenerate: nat, specificTopic: string, questionType: string): string {
    "\nPlease generate " + ShowNat(numToGenerate) + " new **" + questionType + "** questions on **"
    + specificTopic + "**."
  }

  function UserMessage(refs: seq<string>, numToGenerate: nat, specificTopic: string, questionType: string): string {
    UserIntro + Listing(refs, 0) + Request(numToGenerate, specificTopic, questionType)
  }

  /** `format_prompt_for_generation`: the system and user messages of one attempt. */
  function FormatPromptForGeneration(questionsSeries: seq<string>, subject: string, numToGenerate: nat,
                                     specificTopic: string, questionType: string): Prompts
  {
    Prompts(SystemMessage(subject, numToGenerate, specificTopic, questionType),
            UserMessage(questionsSeries, numToGenerate, specificTopic, questionType))
  }

  /**
   * The listing is built as the source builds it, one line appended per
   * reference question in order.
   */
  lemma {:induction false} ListingSnoc(refs: seq<string>, q: string, i: nat)
    ensures Listing(refs + [q], i) == Listing(refs, i) + Line(i + |refs|, q)
    decreases |refs|
  {
    if refs == [] {
      assert refs + [q] == [q];
      assert Listing([q], i) == Line(i, q) + Listing([], i + 1);
    } else {
      assert (refs + [q])[1..] == refs[1..] + [q];
      ListingSnoc(refs[1..], q, i + 1);
    }
  }

  lemma Splice(head: string, whole: string, tail: string, a: string, l: string, b: string)
    requires whole == a + l + b
    ensures head + whole + tail == head + (a + l + b) + tail
  {
  }

  lemma Regroup(head: string, a: string, l: string, b: string)
    ensures head + (a + l + b) == head + a + l + b
  {
  }

  /** The listing splits at every reference question: question k stands on line k, numbered `i + k`. */
  lemma {:induction false} ListingSplit(refs: seq<string>, i: nat, k: nat)
    requires k < |refs|
    ensures Listing(refs, i) == Listing(refs[..k], i) + Line(i + k, refs[k]) + Listing(refs[k + 1..], i + k + 1)
    decreases k
  {
    if k == 0 {
      assert refs[..0] == [];
    } else {
      var rest := refs[1..];
      ListingSplit(rest, i + 1, k - 1);
      TailSlices(refs, k);
      var head := Line(i, refs[0]);
      var a := Listing(rest[..k - 1], i + 1);
      var b := Line(i + k, refs[k]);
      var c := Listing(refs[k + 1..], i + k + 1);
      assert Listing(rest, i + 1) == a + b + c;
      assert Listing(refs, i) == head + Listing(rest, i + 1);
      assert Listing(refs[..k], i) == head + a;
      Regroup(head, a, b, c);
    }
  }

  /** The user message with its listing split at reference question k. */
  lemma UserMessageSplit(refs: seq<string>, numToGenerate: nat, specificTopic: string, questionType: string, k: nat)
    requires k < |refs|
    ensures UserMessage(refs, numToGenerate, specificTopic, questionType)
         == UserIntro + (Listing(refs[..k], 0) + Line(k, refs[k]) + Listing(refs[k + 1..], k + 1))
            + Request(numToGenerate, specificTopic, questionType)
  {
    ListingSplit(refs, 0, k);
    Splice(UserIntro, Listing(refs, 0), Request(numToGenerate, specificTopic, questionType),
           Listing(refs[..k], 0), Line(k, refs[k]), Listing(refs[k + 1..], k + 1));
  }

  /**
   * The user message of an attempt: the introduction, then reference
   * question k on its own line numbered k (counting from 0), then the
   * request that names the count, the question type and the topic.
   */
  lemma UserMessageLists(questionsSeries: seq<string>, subject: string, numToGenerate: nat,
                         specificTopic: string, questionType: string, k: nat)
    requires k < |questionsSeries|
    ensures var p := FormatPromptForGeneration(questionsSeries, subject, numToGenerate, specificTopic, questionType);
      p.user == UserIntro
                + (Listing(questionsSeries[..k], 0) + Line(k, questionsSeries[k]) + Listing(questionsSeries[k + 1..], k + 1))
                + Request(numToGenerate, specificTopic, questionType)
  {
    UserMessageSplit(questionsSeries, numToGenerate, specificTopic, questionType, k);
  }

  /** The field values of the example block. */
  function ExampleFields(specificTopic: string, questionType: string): seq<string> {
    if IsMcqMode(questionType) then ["...", "Hard", specificTopic, "...", "...", "...", "...", "(B)", "..."]
    else ["...", "Hard", specificTopic, "(The full model answer with keywords)"]
  }

  /** The question the example block describes. */
  function ExampleRecord(specificTopic: string, questionType: string): (r: Record)
    ensures r.Mcq? ==> r.answer == "(B)"
  {
    ToRecord(questionType, ExampleFields(specificTopic, questionType))
  }

  /** The field lines of a block, each ended by a line break. */
  function LinesText(ls: seq<string>, fs: seq<string>): string
    decreases |ls|
  {
    if ls == [] || fs == [] then [] else ls[0] + " " + fs[0] + "\n" + LinesText(ls[1..], fs[1..])
  }

  /** Field lines introduced by line breaks, plus one more break, are the same lines ended by breaks. */
  lemma {:induction false} FieldsTextBreak(ls: seq<string>, fs: seq<string>)
    ensures FieldsText(ls, fs) + "\n" == "\n" + LinesText(ls, fs)
    decreases |ls|
  {
    if ls != [] && fs != [] {
      FieldsTextBreak(ls[1..], fs[1..]);
      var a := ls[0] + " " + fs[0];
      calc {
        FieldsText(ls, fs) + "\n";
        "\n" + a + (FieldsText(ls[1..], fs[1..]) + "\n");
        "\n" + a + ("\n" + LinesText(ls[1..], fs[1..]));
        "\n" + (a + "\n" + LinesText(ls[1..], fs[1..]));
      }
    }
  }

  lemma LinesFrom(ls: seq<string>, fs: seq<string>, k: nat, x: string, rest: string)
    requires k < |ls| && k < |fs|
    requires x == ls[k] + " " + fs[k] + "\n" && rest == LinesText(ls[k + 1..], fs[k + 1..])
    ensures LinesText(ls[k..], fs[k..]) == x + rest
  {
    assert ls[k..][1..] == ls[k + 1..];
    assert fs[k..][1..] == fs[k + 1..];
  }

  /** The nine lines of an MCQ block. */
  lemma McqLines(ls: seq<string>, fs: seq<string>, x0: string, x1: string, x2: string, x3: string, x4: string,
                 x5: string, x6: string, x7: string, x8: string)
    requires |ls| == 9 && |fs| == 9
    requires x0 == ls[0] + " " + fs[0] + "\n" && x1 == ls[1] + " " + fs[1] + "\n" && x2 == ls[2] + " " + fs[2] + "\n"
    requires x3 == ls[3] + " " + fs[3] + "\n" && x4 == ls[4] + " " + fs[4] + "\n" && x5 == ls[5] + " " + fs[5] + "\n"
    requires x6 == ls[6] + " " + fs[6] + "\n" && x7 == ls[7] + " " + fs[7] + "\n" && x8 == ls[8] + " " + fs[8] + "\n"
    ensures LinesText(ls, fs) == x0 + (x1 + (x2 + (x3 + (x4 + (x5 + (x6 + (x7 + (x8 + []))))))))
  {
    assert ls[9..] == [];
    LinesFrom(ls, fs, 8, x8, []);
    LinesFrom(ls, fs, 7, x7, x8 + []);
    LinesFrom(ls, fs, 6, x6, x7 + (x8 + []));
    LinesFrom(ls, fs, 5, x5, x6 + (x7 + (x8 + [])));
    LinesFrom(ls, fs, 4, x4, x5 + (x6 + (x7 + (x8 + []))));
    LinesFrom(ls, fs, 3, x3, x4 + (x5 + (x6 + (x7 + (x8 + [])))));
    LinesFrom(ls, fs, 2, x2, x3 + (x4 + (x5 + (x6 + (x7 + (x8 + []))))));
    LinesFrom(ls, fs, 1, x1, x2 + (x3 + (x4 + (x5 + (x6 + (x7 + (x8 + [])))))));
    LinesFrom(ls, fs, 0, x0, x1 + (x2 + (x3 + (x4 + (x5 + (x6 + (x7 + (x8 + []))))))));
    assert ls[0..] == ls && fs[0..] == fs;
  }

  /** The four lines of an Open-Ended block. */
  lemma OpenLines(ls: seq<string>, fs: seq<string>, x0: string, x1: string, x2: string, x3: string)
    requires |ls| == 4 && |fs| == 4
    requires x0 == ls[0] + " " + fs[0] + "\n" && x1 == ls[1] + " " + fs[1] + "\n"
    requires x2 == ls[2] + " " + fs[2] + "\n" && x3 == ls[3] + " " + fs[3] + "\n"
    ensures LinesText(ls, fs) == x0 + (x1 + (x2 + (x3 + [])))
  {
    assert ls[4..] == [];
    LinesFrom(ls, fs, 3, x3, []);
    LinesFrom(ls, fs, 2, x2, x3 + []);
    LinesFrom(ls, fs, 1, x1, x2 + (x3 + []));
    LinesFrom(ls, fs, 0, x0, x1 + (x2 + (x3 + [])));
    assert ls[0..] == ls && fs[0..] == fs;
  }

  lemma McqRegroup(h: string, x0: string, x1: string, a: string, t: string, b: string, x3: string, x4: string,
                   x5: string, x6: string, x7: string, x8: string)
    ensures h + (x0 + (x1 + ((a + t + b) + (x3 + (x4 + (x5 + (x6 + (x7 + (x8 + [])))))))))
         == h + x0 + x1 + a + t + b + x3 + x4 + x5 + x6 + x7 + x8
  {
  }

  lemma OpenRegroup(h: string, x0: string, x1: string, a: string, t: string, b: string,
                    c: string, m: string, d: string)
    ensures h + (x0 + (x1 + ((a + t + b) + ((c + m + d) + [])))) == h + x0 + x1 + a + t + b + c + m + d
  {
  }

  lemma McqLineFacts(t: string)
    ensures McqLabels[0] + " " + "..." + "\n" == "Question: ...\n"
    ensures McqLabels[1] + " " + "Hard" + "\n" == "Difficulty: Hard\n"
    ensures McqLabels[2] + " " + t + "\n" == "Topic: " + t + "\n"
  {
  }

  lemma OptionLineFacts()
    ensures McqLabels[3] + " " + "..." + "\n" == "A) ...\n"
    ensures McqLabels[4] + " " + "..." + "\n" == "B) ...\n"
    ensures McqLabels[5] + " " + "..." + "\n" == "C) ...\n"
    ensures McqLabels[6] + " " + "..." + "\n" == "D) ...\n"
  {
  }

  lemma McqAnswerLineFacts()
    ensures McqLabels[7] + " " + "(B)" + "\n" == "Answer: (B)\n"
    ensures McqLabels[8] + " " + "..." + "\n" == "Reasoning: ...\n"
  {
  }

  lemma OpenLineFacts(t: string)
    ensures OpenLabels[0] + " " + "..." + "\n" == "Question: ...\n"
    ensures OpenLabels[1] + " " + "Hard" + "\n" == "Difficulty: Hard\n"
    ensures OpenLabels[2] + " " + t + "\n" == "Topic: " + t + "\n"
  {
  }

  lemma OpenAnswerLineFact(m: string)
    ensures OpenLabels[3] + " " + m + "\n" == "Answer: " + m + "\n"
  {
  }

  /** The example block is the header numbered 0, then one line per field of the example question. */
  lemma ExampleLines(specificTopic: string, questionType: string)
    ensures OutputFormatExample(specificTopic, questionType)
         == "[Reference: 0]\n" + LinesText(Labels(questionType), ExampleFields(specificTopic, questionType))
  {
    var t := specificTopic;
    var ls := Labels(questionType);
    var fs := ExampleFields(t, questionType);
    if IsMcqMode(questionType) {
      McqLineFacts(t);
      OptionLineFacts();
      McqAnswerLineFacts();
      McqLines(ls, fs, "Question: ...\n", "Difficulty: Hard\n", "Topic: " + t + "\n", "A) ...\n", "B) ...\n",
               "C) ...\n", "D) ...\n", "Answer: (B)\n", "Reasoning: ...\n");
      McqRegroup("[Reference: 0]\n", "Question: ...\n", "Difficulty: Hard\n", "Topic: ", t, "\n", "A) ...\n",
                 "B) ...\n", "C) ...\n", "D) ...\n", "Answer: (B)\n", "Reasoning: ...\n");
    } else {
      OpenLineFacts(t);
      var m := "(The full model answer with keywords)";
      OpenAnswerLineFact(m);
      OpenLines(ls, fs, "Question: ...\n", "Difficulty: Hard\n", "Topic: " + t + "\n", "Answer: " + m + "\n");
      OpenRegroup("[Reference: 0]\n", "Question: ...\n", "Difficulty: Hard\n", "Topic: ", t, "\n",
                  "Answer: ", m, "\n");
    }
  }

  lemma RenderOne(questionType: string, r: Record, n: nat)
    ensures Render(questionType, [r], n) == BlockText(n, Labels(questionType), FieldsOf(r))
  {
    assert FieldLists([r]) == [FieldsOf(r)];
  }

  lemma BlockBreak(n: nat, ls: seq<string>, fs: seq<string>)
    ensures BlockText(n, ls, fs) + "\n" == Header + ShowNat(n) + "]" + "\n" + LinesText(ls, fs)
  {
    var lead := Header + ShowNat(n) + "]";
    var fields := FieldsText(ls, fs);
    FieldsTextBreak(ls, fs);
    assert lead + fields + "\n" == lead + (fields + "\n");
    assert lead + ("\n" + LinesText(ls, fs)) == lead + "\n" + LinesText(ls, fs);
  }

  lemma ExampleHeader()
    ensures Header + ShowNat(0) + "]" + "\n" == "[Reference: 0]\n"
  {
  }

  /** The example block is the rendering of the example question as block 0, followed by a line break. */
  lemma ExampleIsBlock(specificTopic: string, questionType: string)
    ensures OutputFormatExample(specificTopic, questionType)
         == Render(questionType, [ExampleRecord(specificTopic, questionType)], 0) + "\n"
  {
    var r := ExampleRecord(specificTopic, questionType);
    RenderOne(questionType, r, 0);
    BlockBreak(0, Labels(questionType), FieldsOf(r));
    ExampleHeader();
    ExampleLines(specificTopic, questionType);
  }

  /**
   * A reply that repeats the example block is parsed into the example
   * question, whenever the topic fits on one line: the prescribed layout is
   * the one the parser reads.
   */
  lemma ExampleParses(specificTopic: string, questionType: string)
    requires GoodField(specificTopic)
    ensures Parse(OutputFormatExample(specificTopic, questionType), questionType)
         == [ExampleRecord(specificTopic, questionType)]
  {
    var r := ExampleRecord(specificTopic, questionType);
    ExampleWellFormed(specificTopic, questionType);
    ExampleIsBlock(specificTopic, questionType);
    ParseRenderOne(questionType, r, 0, "\n");
  }

  lemma PlaceholdersFit()
    ensures GoodField("...") && GoodField("Hard") && GoodField("(B)")
  {
  }

  lemma ModelAnswerPlaceholderFits()
    ensures GoodField("(The full model answer with keywords)")
  {
  }

  /** The example question fits the layout whenever its topic fits on one line. */
  lemma ExampleWellFormed(specificTopic: string, questionType: string)
    requires GoodField(specificTopic)
    ensures WellFormed(questionType, ExampleRecord(specificTopic, questionType))
  {
    var fs := ExampleFields(specificTopic, questionType);
    PlaceholdersFit();
    ModelAnswerPlaceholderFits();
    assert forall i :: 0 <= i < |fs| ==> GoodField(fs[i]);
  }

  /** The system message embeds the example block in the layout the parser reads. */
  lemma SystemMessageExample(questionsSeries: seq<string>, subject: string, numToGenerate: nat,
                             specificTopic: string, questionType: string)
    requires GoodField(specificTopic)
    ensures var p := FormatPromptForGeneration(questionsSeries, subject, numToGenerate, specificTopic, questionType);
      var ex := OutputFormatExample(specificTopic, questionType);
      && p.system == SystemLead(subject, numToGenerate, specificTopic, questionType) + ex + SystemTail
      && Parse(ex, questionType) == [ExampleRecord(specificTopic, questionType)]
  {
    ExampleParses(specificTopic, questionType);
  }

}
