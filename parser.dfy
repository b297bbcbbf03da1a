/**
 * `parse_generated_questions`: the reply of the language model is split into
 * `[Reference: n]` blocks with one labelled field per line, in the MCQ layout
 * or in the Open-Ended layout, and every block becomes one question record
 * whose fields are the stripped captures.
 */
module Parser {
  import opened Wrappers
  import opened Text
  import opened Regex

  /** A generated question, as the dictionaries the parser appends. */
  datatype Record =
    | Mcq(question: string, difficulty: string, topic: string, options: map<string, string>,
          answer: string, reasoning: string)
    | OpenEnded(question: string, difficulty: string, topic: string, answer: string)
  {
    /** The record's "type" entry. */
    function Kind(): string {
      if Mcq? then "MCQ" else "Open-Ended"
    }
  }

  const OptionKeys: set<string> := {"A", "B", "C", "D"}

  /** The field labels of a block, in the order the layout requires them. */
  const McqLabels: seq<string> :=
    ["Question:", "Difficulty:", "Topic:", "A)", "B)", "C)", "D)", "Answer:", "Reasoning:"]
  const OpenLabels: seq<string> := ["Question:", "Difficulty:", "Topic:", "Answer:"]

  /** Every block starts with this header, followed by digits and `]`. */
  const Header: string := "[Reference: "
  /** A block's last field ends before this text, or at the end of the reply. */
  const NextHeader: string := "\n[Reference:"

  /** Any question type other than "MCQ" is read in the Open-Ended layout. */
  predicate IsMcqMode(questionType: string) {
    questionType == "MCQ"
  }

  function Labels(questionType: string): seq<string> {
    if IsMcqMode(questionType) then McqLabels else OpenLabels
  }

  /** `\n\s*<label>\s*(.*?)` for every label in turn, then `tail`. */
  function FieldsThen(labels: seq<string>, tail: Pattern): Pattern
    decreases |labels|
  {
    if labels == [] then tail
    else [Char('\n'), Spaces] + (Lits(labels[0]) + ([Spaces, Any(true)] + FieldsThen(labels[1..], tail)))
  }

  lemma {:induction false} GroupCountFields(labels: seq<string>, tail: Pattern)
    ensures GroupCount(FieldsThen(labels, tail)) == |labels| + GroupCount(tail)
    decreases |labels|
  {
    if labels != [] {
      var rest := FieldsThen(labels[1..], tail);
      GroupCountFields(labels[1..], tail);
      GroupCountLits(labels[0]);
      GroupCountAppend([Spaces, Any(true)], rest);
      GroupCountAppend(Lits(labels[0]), [Spaces, Any(true)] + rest);
      GroupCountAppend([Char('\n'), Spaces], Lits(labels[0]) + ([Spaces, Any(true)] + rest));
      assert GroupCount([Spaces, Any(true)]) == 1 by {
        assert [Spaces, Any(true)][1..] == [Any(true)];
        assert [Any(true)][1..] == [];
      }
      assert GroupCount([Char('\n'), Spaces]) == 0 by {
        assert [Char('\n'), Spaces][1..] == [Spaces];
        assert [Spaces][1..] == [];
      }
    }
  }

  /**
   * `\[Reference: \d+\].*?`, one `\n\s*<label>\s*(.*?)` per label, and
   * `(?=\n\[Reference:|\Z)`: the two patterns of the parser.
   */
  function BlockPattern(labels: seq<string>): (p: Pattern)
    ensures Anchored(p) && p[0] == Char('[')
    ensures GroupCount(p) == |labels|
  {
    var fields := FieldsThen(labels, [AheadOrEnd(NextHeader)]);
    var p := Lits(Header) + ([Digits] + (Lits("]") + ([Any(false)] + fields)));
    GroupCountFields(labels, [AheadOrEnd(NextHeader)]);
    assert GroupCount([AheadOrEnd(NextHeader)]) == 0 by {
      assert [AheadOrEnd(NextHeader)][1..] == [];
    }
    GroupCountLits(Header);
    GroupCountLits("]");
    GroupCountAppend(Lits(Header), [Digits] + (Lits("]") + ([Any(false)] + fields)));
    GroupCountAppend([Digits], Lits("]") + ([Any(false)] + fields));
    GroupCountAppend(Lits("]"), [Any(false)] + fields);
    GroupCountAppend([Any(false)], fields);
    assert GroupCount([Digits]) == 0 by {
      assert [Digits][1..] == [];
    }
    assert GroupCount([Any(false)]) == 0 by {
      assert [Any(false)][1..] == [];
    }
    p
  }

  function PatternFor(questionType: string): (p: Pattern)
    ensures Anchored(p) && p[0] == Char('[') && GroupCount(p) == |Labels(questionType)|
  {
    BlockPattern(Labels(questionType))
  }

  /** `options.get(key, 'N/A')` */
  function OptionText(options: map<string, string>, key: string): string {
    if key in options then options[key] else "N/A"
  }

  /** The field values of a record, in its layout's label order. */
  function FieldsOf(r: Record): seq<string> {
    match r
    case Mcq(q, d, t, o, a, why) =>
      [q, d, t, OptionText(o, "A"), OptionText(o, "B"), OptionText(o, "C"), OptionText(o, "D"), a, why]
    case OpenEnded(q, d, t, a) => [q, d, t, a]
  }

  function LabelsOf(r: Record): seq<string> {
    if r.Mcq? then McqLabels else OpenLabels
  }

  /** Every field of the record is left unchanged by `strip()`. */
  predicate AllStripped(r: Record) {
    forall i :: 0 <= i < |FieldsOf(r)| ==> IsStripped(FieldsOf(r)[i])
  }

  /** The stripped captures of one match, in label order. */
  function StripAll(groups: seq<string>): (r: seq<string>)
    ensures |r| == |groups| && forall i :: 0 <= i < |groups| ==> r[i] == Strip(groups[i])
  {
    seq(|groups|, i requires 0 <= i < |groups| => Strip(groups[i]))
  }

  /** The record of a layout with the given field values, in label order. */
  function ToRecord(questionType: string, fields: seq<string>): (r: Record)
    requires |fields| == |Labels(questionType)|
    ensures r.Mcq? <==> IsMcqMode(questionType)
    ensures r.Mcq? ==> r.options.Keys == OptionKeys
    ensures FieldsOf(r) == fields
  {
    var g := fields;
    if IsMcqMode(questionType) then
      var options := map["A" := g[3], "B" := g[4], "C" := g[5], "D" := g[6]];
      assert options.Keys == OptionKeys;
      Mcq(g[0], g[1], g[2], options, g[7], g[8])
    else
      OpenEnded(g[0], g[1], g[2], g[3])
  }

  /**
   * The record built from the groups of one match: the layout's type, the
   * option keys A to D in the MCQ layout, and every field the stripped
   * capture of its label.
   */
  function RecordOf(questionType: string, groups: seq<string>): (r: Record)
    requires |groups| == |Labels(questionType)|
    ensures r.Kind() == if IsMcqMode(questionType) then "MCQ" else "Open-Ended"
    ensures r.Mcq? <==> IsMcqMode(questionType)
    ensures r.Mcq? ==> r.options.Keys == OptionKeys
    ensures FieldsOf(r) == StripAll(groups)
  {
    ToRecord(questionType, StripAll(groups))
  }

  /** Every field of a parsed record is left unchanged by a second `strip()`. */
  lemma RecordOfStripped(questionType: string, groups: seq<string>)
    requires |groups| == |Labels(questionType)|
    ensures AllStripped(RecordOf(questionType, groups))
  {
    var fs := FieldsOf(RecordOf(questionType, groups));
    forall i | 0 <= i < |fs|
      ensures IsStripped(fs[i])
    {
      assert fs[i] == Strip(groups[i]);
    }
  }

  /** One record per match, in the order of the matches. */
  function Records(questionType: string, found: seq<Found>): (rs: seq<Record>)
    requires forall k :: 0 <= k < |found| ==> |found[k].groups| == |Labels(questionType)|
    ensures |rs| == |found|
    decreases |found|
  {
    if found == [] then []
    else Records(questionType, found[..|found| - 1]) + [RecordOf(questionType, found[|found| - 1].groups)]
  }

  /** Record `k` is built from the groups of match `k`. */
  lemma {:induction false} RecordsAt(questionType: string, found: seq<Found>, k: nat)
    requires forall k :: 0 <= k < |found| ==> |found[k].groups| == |Labels(questionType)|
    requires k < |found|
    ensures Records(questionType, found)[k] == RecordOf(questionType, found[k].groups)
    decreases |found|
  {
    if k < |found| - 1 {
      var init := found[..|found| - 1];
      RecordsAt(questionType, init, k);
      assert init[k] == found[k];
    }
  }

  /** The records `parse_generated_questions` returns for a reply. */
  function Parse(text: string, questionType: string): seq<Record> {
    Records(questionType, FindAll(PatternFor(questionType), text, 0))
  }

  lemma RecordsSnoc(questionType: string, found: seq<Found>, k: nat)
    requires k < |found|
    requires forall k :: 0 <= k < |found| ==> |found[k].groups| == |Labels(questionType)|
    ensures Records(questionType, found[..k + 1])
         == Records(questionType, found[..k]) + [RecordOf(questionType, found[k].groups)]
  {
    assert found[..k + 1][..k] == found[..k];
  }

  /**
   * `parse_generated_questions`: one record appended per match of the
   * layout's pattern. The list of questions generated so far is a parameter
   * of the source function that it never reads.
   */
  method ParseGeneratedQuestions(textBlob: string, questionsListSoFar: seq<Record>, questionType: string)
    returns (newQuestions: seq<Record>)
    ensures newQuestions == Parse(textBlob, questionType)
  {
    var matches := FindAll(PatternFor(questionType), textBlob, 0);
    newQuestions := [];
    for k := 0 to |matches|
      invariant newQuestions == Records(questionType, matches[..k])
    {
      RecordsSnoc(questionType, matches, k);
      newQuestions := newQuestions + [RecordOf(questionType, matches[k].groups)];
    }
    assert matches[..|matches|] == matches;
  }

  /**
   * The parser returns one record per match `findall` reports, in text order:
   * record k holds the stripped groups of match k; the matches do not
   * overlap; and no block the pattern would match is skipped before, between
   * or after them.
   */
  lemma ParseFollowsMatches(text: string, questionType: string)
    ensures var p := PatternFor(questionType);
      var found := FindAll(p, text, 0);
      var rs := Parse(text, questionType);
      && |rs| == |found|
      && (forall k :: 0 <= k < |rs| ==>
            FieldsOf(rs[k]) == StripAll(found[k].groups))
      && AreHits(p, text, found)
      && InOrder(found)
      && NoMatchIn(p, text, 0, if found == [] then |text| + 1 else found[0].start)
      && NoneInGaps(p, text, found)
  {
    var p := PatternFor(questionType);
    var found := FindAll(p, text, 0);
    forall k | 0 <= k < |found|
      ensures FieldsOf(Parse(text, questionType)[k]) == StripAll(found[k].groups)
    {
      RecordsAt(questionType, found, k);
    }
    FindAllHits(p, text, 0);
    FindAllOrdered(p, text, 0);
    FindAllLeftmost(p, text, 0);
    FindAllGaps(p, text, 0);
  }

  /** A record of the question type's layout, with the option keys A to D and only stripped fields. */
  predicate IsRecordOf(questionType: string, r: Record) {
    && r.Kind() == (if IsMcqMode(questionType) then "MCQ" else "Open-Ended")
    && (r.Mcq? <==> IsMcqMode(questionType))
    && (r.Mcq? ==> r.options.Keys == OptionKeys)
    && AllStripped(r)
  }

  /** Every record the parser returns has its layout's type and keys, and only stripped fields. */
  lemma ParsedRecordsAreTyped(text: string, questionType: string)
    ensures forall r :: r in Parse(text, questionType) ==> IsRecordOf(questionType, r)
  {
    var found := FindAll(PatternFor(questionType), text, 0);
    var rs := Parse(text, questionType);
    forall k | 0 <= k < |rs|
      ensures IsRecordOf(questionType, rs[k])
    {
      RecordsAt(questionType, found, k);
      RecordOfStripped(questionType, found[k].groups);
    }
  }

  /** `t` begins with `[Reference: `, one or more digits and `]`, letters compared case-insensitively. */
  predicate HeaderAt(t: string) {
    FoldPrefix(t, Header)
    && exists j :: |Header| < j < |t| && AllDigits(t[|Header|..j]) && t[j] == ']'
  }

  /** A block can only match where a `[Reference: n]` header stands. */
  lemma BlockStartsWithHeader(labels: seq<string>, t: string)
    requires Match(BlockPattern(labels), t).Some?
    ensures HeaderAt(t)
  {
    var fields := FieldsThen(labels, [AheadOrEnd(NextHeader)]);
    var q2 := [Any(false)] + fields;
    var q1 := [Digits] + (Lits("]") + q2);
    LitsThen(Header, q1, t);
    var u := t[|Header|..];
    assert Match(q1, u).Some?;
    assert u != [] && IsDigit(u[0]) && Greedy(q1, u, 1, DigitSpan(u)).Some?;
    GreedyWitness(q1, u, 1, DigitSpan(u));
    var j :| 1 <= j <= DigitSpan(u) && Match(q1[1..], u[j..]).Some?;
    assert q1[1..] == Lits("]") + q2;
    LitsThen("]", q2, u[j..]);
    ClosingBracket(t, |Header|, j, DigitSpan(u));
  }

  /** A run of `k` digits at `h` whose first `j` digits are followed by `]` (case-folded) puts a `]` right after them. */
  lemma ClosingBracket(t: string, h: nat, j: nat, k: nat)
    requires h <= |t| && 1 <= j <= k <= |t| - h
    requires AllDigits(t[h..][..k]) && FoldPrefix(t[h..][j..], "]")
    ensures h < h + j < |t| && AllDigits(t[h..h + j]) && t[h + j] == ']'
  {
    var u := t[h..];
    assert Lower(u[j..][0]) == Lower(']');
    assert u[j] == t[h + j];
    assert t[h..h + j] == u[..k][..j];
  }

  /** A reply without any `[Reference: n]` header yields no records. */
  lemma NoHeaderNoRecords(text: string, questionType: string)
    requires forall q :: 0 <= q <= |text| ==> !HeaderAt(text[q..])
    ensures Parse(text, questionType) == []
  {
    var p := PatternFor(questionType);
    var found := FindAll(p, text, 0);
    if found != [] {
      FindAllHits(p, text, 0);
      BlockStartsWithHeader(Labels(questionType), text[found[0].start..]);
    }
  }

}
