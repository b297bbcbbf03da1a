/**
 * The block layout the prompts ask the language model to follow: a header
 * `[Reference: n]`, then one line per field, `<label> <value>`, in the
 * layout's label order, blocks separated by a line break. Rendering records
 * in this layout and parsing the text back gives the records again: the
 * parser reads exactly the format the prompts prescribe.
 */
module Layout {
  import opened Wrappers
  import opened Seqs
  import opened Text
  import opened Regex
  import opened Parser

  /** A field value the layout can carry: one non-empty line with no surrounding whitespace. */
  predicate GoodField(f: string) {
    f != [] && IsStripped(f) && '\n' !in f
  }

  /** A label that the `\s*` before it cannot run into. */
  predicate GoodLabel(l: string) {
    l != [] && !IsSpace(l[0])
  }

  /** A record of the question type's layout whose every field fits on its line. */
  predicate WellFormed(questionType: string, r: Record) {
    && (r.Mcq? <==> IsMcqMode(questionType))
    && (r.Mcq? ==> r.options.Keys == OptionKeys)
    && forall i :: 0 <= i < |FieldsOf(r)| ==> GoodField(FieldsOf(r)[i])
  }

  /** The field lines of a block, each introduced by a line break: one per label that has a value. */
  function FieldsText(labels: seq<string>, fields: seq<string>): string
    decreases |labels|
  {
    if labels == [] || fields == [] then []
    else "\n" + labels[0] + " " + fields[0] + FieldsText(labels[1..], fields[1..])
  }

  /** A block numbered `n`. */
  function BlockText(n: nat, labels: seq<string>, fields: seq<string>): string {
    Header + ShowNat(n) + "]" + FieldsText(labels, fields)
  }

  /** Consecutive blocks numbered from `n`, separated by line breaks. */
  function Blocks(labels: seq<string>, fss: seq<seq<string>>, n: nat): string
    decreases |fss|
  {
    if fss == [] then []
    else if |fss| == 1 then BlockText(n, labels, fss[0])
    else BlockText(n, labels, fss[0]) + "\n" + Blocks(labels, fss[1..], n + 1)
  }

  /** The field values of each record, in label order. */
  function FieldLists(rs: seq<Record>): (fss: seq<seq<string>>)
    ensures |fss| == |rs| && forall k :: 0 <= k < |rs| ==> fss[k] == FieldsOf(rs[k])
  {
    seq(|rs|, k requires 0 <= k < |rs| => FieldsOf(rs[k]))
  }

  /** Records of the question type's layout rendered as blocks numbered from `n`. */
  function Render(questionType: string, rs: seq<Record>, n: nat): string {
    Blocks(Labels(questionType), FieldLists(rs), n)
  }

  /** The field patterns of a layout followed by the lookahead that ends the block. */
  function Fields(labels: seq<string>): Pattern {
    FieldsThen(labels, [AheadOrEnd(NextHeader)])
  }

  lemma FieldsStep(ls: seq<string>)
    requires ls != []
    ensures Fields(ls) == [Char('\n'), Spaces] + (Lits(ls[0]) + ([Spaces, Any(true)] + Fields(ls[1..])))
  {
  }

  lemma FieldsNone()
    ensures Fields([]) == [AheadOrEnd(NextHeader)]
  {
  }

  /** What may follow a block: nothing, or the next block's header. */
  predicate NextOrEnd(t: string) {
    t == [] || FoldPrefix(t, NextHeader)
  }

  lemma FoldPrefixOf(t: string, w: string)
    requires |w| <= |t| && t[..|w|] == w
    ensures FoldPrefix(t, w)
  {
    forall i | 0 <= i < |w| ensures Lower(t[i]) == Lower(w[i]) {
      assert t[..|w|][i] == t[i];
    }
  }

  lemma LabelsAreGood()
    ensures forall i :: 0 <= i < |McqLabels| ==> GoodLabel(McqLabels[i])
    ensures forall i :: 0 <= i < |OpenLabels| ==> GoodLabel(OpenLabels[i])
  {
  }

  /** A run of digits followed by a non-digit is consumed whole by `\d+`. */
  lemma {:induction false} DigitSpanPrefix(d: string, x: string)
    requires AllDigits(d) && (x == [] || !IsDigit(x[0]))
    ensures DigitSpan(d + x) == |d|
    decreases |d|
  {
    if d == [] {
      assert d + x == x;
    } else {
      assert (d + x)[0] == d[0];
      assert (d + x)[1..] == d[1..] + x;
      DigitSpanPrefix(d[1..], x);
    }
  }

  /**
   * Inside the last field and the whitespace after it, the lookahead for the
   * next header does not hold.
   */
  lemma NoHeaderInside(f: string, w: string, t: string, j: nat)
    requires '\n' !in f && AllSpace(w) && NextOrEnd(t) && j < |f| + |w|
    ensures Match([AheadOrEnd(NextHeader)], (f + w + t)[j..]).None?
  {
    var x := (f + w + t)[j..];
    assert x != [];
    if |x| >= |NextHeader| {
      if j < |f| {
        assert x[0] == f[j];
        assert Lower(x[0]) != Lower(NextHeader[0]);
      } else if x[0] != '\n' {
        assert Lower(x[0]) != Lower(NextHeader[0]);
      } else if j + 1 < |f| + |w| {
        assert x[1] == w[j + 1 - |f|];
        assert Lower(x[1]) != Lower(NextHeader[1]);
      } else {
        assert x[1] == t[0];
        assert Lower(t[0]) == Lower(NextHeader[0]);
        assert Lower(x[1]) != Lower(NextHeader[1]);
      }
    }
  }

  /**
   * One field line: the line break, the label and the single space after it
   * are consumed, and the lazy capture starts at the value.
   */
  lemma FieldLine(l: string, rest: Pattern, f: string, after: string)
    requires GoodLabel(l) && f != [] && !IsSpace(f[0])
    requires Lazy([Any(true)] + rest, f + after, 0).Some?
    ensures Match([Char('\n'), Spaces] + (Lits(l) + ([Spaces, Any(true)] + rest)), "\n" + l + " " + f + after)
         == Lazy([Any(true)] + rest, f + after, 0)
  {
    var q := [Spaces, Any(true)] + rest;
    var p := [Char('\n'), Spaces] + (Lits(l) + q);
    var text := "\n" + l + " " + f + after;
    var u := l + (" " + (f + after));
    assert p[0] == Char('\n') && p[1..] == [Spaces] + (Lits(l) + q);
    assert text[0] == '\n' && text[1..] == u;
    assert Match(p, text) == Match(p[1..], u);
    assert u[0] == l[0];
    assert SpaceSpan(u) == 0;
    assert ([Spaces] + (Lits(l) + q))[1..] == Lits(l) + q;
    assert u[0..] == u;
    assert Match(p[1..], u) == Match(Lits(l) + q, u);
    LitsExact(l, q, " " + (f + after));
    var v := " " + (f + after);
    assert v[1..] == f + after;
    assert (f + after)[0] == f[0];
    assert SpaceSpan(v[1..]) == 0;
    assert SpaceSpan(v) == 1;
    assert q[0] == Spaces && q[1..] == [Any(true)] + rest;
    assert Match(q, v) == Greedy(q, v, 0, 1);
    assert Match([Any(true)] + rest, f + after) == Lazy([Any(true)] + rest, f + after, 0);
  }

  /** Where the lookahead after the last field holds: only at the end of the trailing whitespace. */
  lemma LastFieldEnd(none: seq<string>, f: string, w: string, t: string)
    requires none == [] && GoodField(f) && AllSpace(w) && NextOrEnd(t)
    ensures forall j :: 0 <= j < |f| + |w| ==> Match(Fields(none), (f + w + t)[j..]).None?
    ensures Match(Fields(none), (f + w + t)[|f| + |w|..]) == Some(Hit(|t|, []))
  {
    FieldsNone();
    forall j | 0 <= j < |f| + |w|
      ensures Match([AheadOrEnd(NextHeader)], (f + w + t)[j..]).None?
    {
      NoHeaderInside(f, w, t, j);
    }
    assert (f + w + t)[|f| + |w|..] == t;
    assert [AheadOrEnd(NextHeader)][1..] == [];
  }

  /**
   * A field line whose lazy capture stops at `e`, the first position from
   * which the rest of the pattern matches.
   */
  lemma FieldCapture(l: string, f: string, r: Pattern, after: string, e: nat, h: Hit)
    requires GoodLabel(l) && GoodField(f) && |f| <= e <= |f| + |after|
    requires forall j :: 0 <= j < e ==> Match(r, (f + after)[j..]).None?
    requires Match(r, (f + after)[e..]) == Some(h)
    ensures Match([Char('\n'), Spaces] + (Lits(l) + ([Spaces, Any(true)] + r)), "\n" + l + " " + f + after)
         == Some(Hit(h.rest, [(f + after)[..e]] + h.groups))
  {
    var q := [Any(true)] + r;
    assert q[1..] == r;
    LazyStopsAtFirst(q, f + after, 0, e);
    FieldLine(l, r, f, after);
  }

  /** A block's one remaining field pattern and field line. */
  lemma OneFieldShape(ls: seq<string>, fs: seq<string>, after: string)
    requires |ls| == |fs| == 1
    ensures Fields(ls) == [Char('\n'), Spaces] + (Lits(ls[0]) + ([Spaces, Any(true)] + Fields(ls[1..])))
    ensures FieldsText(ls, fs) + after == "\n" + ls[0] + " " + fs[0] + after
  {
    FieldsStep(ls);
    assert FieldsText(ls[1..], fs[1..]) == [];
  }

  /** The last field line: its capture runs to the end of the block, trailing whitespace included. */
  lemma LastCapture(l: string, f: string, r: Pattern, w: string, t: string)
    requires GoodLabel(l) && GoodField(f) && AllSpace(w) && NextOrEnd(t)
    requires r == Fields([])
    ensures Match([Char('\n'), Spaces] + (Lits(l) + ([Spaces, Any(true)] + r)), "\n" + l + " " + f + (w + t))
         == Some(Hit(|t|, [f + w]))
  {
    assert f + (w + t) == f + w + t;
    LastFieldEnd([], f, w, t);
    assert (f + (w + t))[..|f| + |w|] == f + w;
    FieldCapture(l, f, r, w + t, |f| + |w|, Hit(|t|, []));
    assert [f + w] + [] == [f + w];
  }

  /** A field line before further field lines: its capture stops at the line break that starts the next one. */
  lemma NextField(l: string, f: string, ls: seq<string>, text: string, gs: seq<string>, n: nat)
    requires GoodLabel(l) && GoodField(f) && ls != []
    requires Match(Fields(ls), text) == Some(Hit(n, gs))
    requires text != [] && text[0] == '\n'
    ensures Match(Fields([l] + ls), "\n" + l + " " + f + text) == Some(Hit(n, [f] + gs))
  {
    var r := Fields(ls);
    assert ([l] + ls)[1..] == ls && ([l] + ls)[0] == l;
    FieldsStep([l] + ls);
    FieldsStep(ls);
    forall j | 0 <= j < |f|
      ensures Match(r, (f + text)[j..]).None?
    {
      assert (f + text)[j..][0] == f[j];
    }
    assert (f + text)[|f|..] == text;
    assert (f + text)[..|f|] == f;
    FieldCapture(l, f, r, text, |f|, Hit(n, gs));
  }

  /** The groups a block's match captures: the field values, the last one with the whitespace after it. */
  function Captures(fs: seq<string>, w: string): seq<string>
    requires fs != []
  {
    fs[..|fs| - 1] + [fs[|fs| - 1] + w]
  }

  lemma CapturesStep(fs: seq<string>, w: string)
    requires |fs| > 1
    ensures Captures(fs, w) == [fs[0]] + Captures(fs[1..], w)
  {
  }

  lemma CapturesOne(fs: seq<string>, w: string)
    requires |fs| == 1
    ensures Captures(fs, w) == [fs[0] + w]
  {
  }

  /** The first field line of a block, and the lines after it. */
  lemma FieldsTextStep(ls: seq<string>, fs: seq<string>, after: string)
    requires ls != [] && fs != []
    ensures FieldsText(ls, fs) + after == "\n" + ls[0] + " " + fs[0] + (FieldsText(ls[1..], fs[1..]) + after)
  {
  }

  /**
   * The field lines of a block, followed by trailing whitespace `w` and by
   * nothing or the next header: every capture is the field's value, the last
   * one with the trailing whitespace.
   */
  lemma {:induction false} FieldsMatch(ls: seq<string>, fs: seq<string>, w: string, t: string)
    requires |ls| == |fs| > 0
    requires forall i :: 0 <= i < |ls| ==> GoodLabel(ls[i])
    requires forall i :: 0 <= i < |fs| ==> GoodField(fs[i])
    requires AllSpace(w) && NextOrEnd(t)
    ensures Match(Fields(ls), FieldsText(ls, fs) + w + t) == Some(Hit(|t|, Captures(fs, w)))
    decreases |ls|
  {
    if |ls| == 1 {
      FieldsMatchOne(ls, fs, w, t);
    } else {
      FieldsMatch(ls[1..], fs[1..], w, t);
      FieldsMatchStep(ls, fs, w, t);
    }
  }

  /** The last field line of a block. */
  lemma FieldsMatchOne(ls: seq<string>, fs: seq<string>, w: string, t: string)
    requires |ls| == |fs| == 1 && GoodLabel(ls[0]) && GoodField(fs[0])
    requires AllSpace(w) && NextOrEnd(t)
    ensures Match(Fields(ls), FieldsText(ls, fs) + w + t) == Some(Hit(|t|, Captures(fs, w)))
  {
    Assoc(FieldsText(ls, fs), w, t);
    OneFieldShape(ls, fs, w + t);
    LastCapture(ls[0], fs[0], Fields(ls[1..]), w, t);
    CapturesOne(fs, w);
  }

  /** A field line followed by further field lines, given how the lines after it match. */
  lemma FieldsMatchStep(ls: seq<string>, fs: seq<string>, w: string, t: string)
    requires |ls| == |fs| > 1 && GoodLabel(ls[0]) && GoodField(fs[0])
    requires Match(Fields(ls[1..]), FieldsText(ls[1..], fs[1..]) + w + t) == Some(Hit(|t|, Captures(fs[1..], w)))
    ensures Match(Fields(ls), FieldsText(ls, fs) + w + t) == Some(Hit(|t|, Captures(fs, w)))
  {
    var ls', fs' := ls[1..], fs[1..];
    var text := FieldsText(ls', fs') + w + t;
    FieldsTextThen(ls', fs', w, t);
    NextField(ls[0], fs[0], ls', text, Captures(fs', w), |t|);
    HeadThenTail(ls);
    FieldsTextThen(ls, fs, w, t);
    CapturesStep(fs, w);
  }

  /** Field lines followed by `w` and `t`: a line break, the first line, then the rest. */
  lemma FieldsTextThen(ls: seq<string>, fs: seq<string>, w: string, t: string)
    requires ls != [] && fs != []
    ensures var text := FieldsText(ls, fs) + w + t;
      text != [] && text[0] == '\n'
      && text == "\n" + ls[0] + " " + fs[0] + (FieldsText(ls[1..], fs[1..]) + w + t)
  {
    FieldsTextStep(ls, fs, w + t);
    Assoc(FieldsText(ls, fs), w, t);
    Assoc(FieldsText(ls[1..], fs[1..]), w, t);
  }

  /**
   * The header of a block: the literal text `h`, the digits `d` taken whole
   * by `\d+`, the closing `]` and an empty `.*?`, when the field patterns
   * match right after it.
   */
  lemma HeaderCapture(h: string, d: string, close: string, fields: Pattern, y: string)
    requires d != [] && AllDigits(d) && close == "]"
    requires Match(fields, y).Some?
    ensures Match(Lits(h) + ([Digits] + (Lits(close) + ([Any(false)] + fields))), h + (d + (close + y)))
         == Match(fields, y)
  {
    var q2 := [Any(false)] + fields;
    var q1 := [Digits] + (Lits(close) + q2);
    var z := d + (close + y);
    LitsExact(h, q1, z);
    assert z[0] == d[0];
    assert (close + y)[0] == ']';
    DigitSpanPrefix(d, close + y);
    assert q1[0] == Digits && q1[1..] == Lits(close) + q2;
    assert Match(q1, z) == Greedy(q1, z, 1, |d|);
    assert z[|d|..] == close + y;
    LitsExact(close, q2, y);
    assert q2[1..] == fields && y[0..] == y;
  }

  /** A block's pattern and text, taken apart at the header. */
  lemma BlockShape(n: nat, ls: seq<string>, fs: seq<string>, after: string)
    requires |ls| == |fs|
    ensures BlockPattern(ls) == Lits(Header) + ([Digits] + (Lits("]") + ([Any(false)] + Fields(ls))))
    ensures BlockText(n, ls, fs) + after == Header + (ShowNat(n) + ("]" + (FieldsText(ls, fs) + after)))
  {
    Assoc4(Header, ShowNat(n), "]", FieldsText(ls, fs), after);
  }

  /** A whole block, its header included, matches with the field values as groups. */
  lemma BlockMatch(n: nat, ls: seq<string>, fs: seq<string>, w: string, t: string)
    requires |ls| == |fs| > 0
    requires forall i :: 0 <= i < |ls| ==> GoodLabel(ls[i])
    requires forall i :: 0 <= i < |fs| ==> GoodField(fs[i])
    requires AllSpace(w) && NextOrEnd(t)
    ensures Match(BlockPattern(ls), BlockText(n, ls, fs) + w + t) == Some(Hit(|t|, Captures(fs, w)))
  {
    BlockShape(n, ls, fs, w + t);
    assert BlockText(n, ls, fs) + w + t == BlockText(n, ls, fs) + (w + t);
    assert FieldsText(ls, fs) + (w + t) == FieldsText(ls, fs) + w + t;
    FieldsMatch(ls, fs, w, t);
    HeaderCapture(Header, ShowNat(n), "]", Fields(ls), FieldsText(ls, fs) + w + t);
  }

  /** Stripping the captures gives the field values back. */
  lemma StripGroups(fs: seq<string>, w: string)
    requires |fs| > 0 && AllSpace(w)
    requires forall i :: 0 <= i < |fs| ==> GoodField(fs[i])
    ensures StripAll(Captures(fs, w)) == fs
  {
    var gs := Captures(fs, w);
    forall i | 0 <= i < |fs|
      ensures Strip(gs[i]) == fs[i]
    {
      if i < |fs| - 1 {
        assert gs[i] == fs[i];
        StrippedIsFixed(fs[i]);
      } else {
        assert gs[i] == fs[i] + w;
        StripSpaceTail(fs[i], w);
      }
    }
  }

  /** A well-formed record is rebuilt from its own field values. */
  lemma ToRecordFieldsOf(questionType: string, r: Record)
    requires WellFormed(questionType, r)
    ensures LabelsOf(r) == Labels(questionType)
    ensures ToRecord(questionType, FieldsOf(r)) == r
  {
    if r.Mcq? {
      var o := r.options;
      assert o == map["A" := o["A"], "B" := o["B"], "C" := o["C"], "D" := o["D"]];
    }
  }

  /** A rendering of at least one block starts with a block header. */
  lemma BlocksStartWithHeader(ls: seq<string>, fss: seq<seq<string>>, n: nat, w: string)
    requires fss != []
    ensures |Blocks(ls, fss, n) + w| >= |Header| && (Blocks(ls, fss, n) + w)[..|Header|] == Header
  {
    var body := ShowNat(n) + "]" + FieldsText(ls, fss[0]);
    var after := if |fss| == 1 then w else "\n" + Blocks(ls, fss[1..], n + 1) + w;
    assert BlockText(n, ls, fss[0]) == Header + body;
    assert Blocks(ls, fss, n) + w == Header + body + after;
    StartsWith(Header, body + after);
    assert Header + body + after == Header + (body + after);
  }

  lemma StartsWith(h: string, x: string)
    ensures |h + x| >= |h| && (h + x)[..|h|] == h
  {
  }

  /** A line break followed by a block header begins with the text the lookahead waits for. */
  lemma HeaderAfterBreak(x: string)
    requires |x| >= |Header| && x[..|Header|] == Header
    ensures NextOrEnd("\n" + x)
  {
    var y := "\n" + x;
    assert y[1..1 + |Header|] == Header;
    assert NextHeader == "\n" + Header[..|NextHeader| - 1];
    assert y[..|NextHeader|] == NextHeader;
    FoldPrefixOf(y, NextHeader);
  }

  /** The record built from a rendered record's captures is the record itself. */
  lemma RecordOfCaptures(questionType: string, r: Record, w: string)
    requires WellFormed(questionType, r) && AllSpace(w)
    ensures |Captures(FieldsOf(r), w)| == |Labels(questionType)|
    ensures RecordOf(questionType, Captures(FieldsOf(r), w)) == r
  {
    var fs := FieldsOf(r);
    ToRecordFieldsOf(questionType, r);
    StripGroups(fs, w);
  }

  /** `findall` at the start of a block reports the whole block and goes on after it. */
  lemma FindAllBlock(ls: seq<string>, s: string, pos: nat, n: nat, fs: seq<string>, w: string, t: string)
    requires |ls| == |fs| > 0
    requires forall i :: 0 <= i < |ls| ==> GoodLabel(ls[i])
    requires forall i :: 0 <= i < |fs| ==> GoodField(fs[i])
    requires AllSpace(w) && NextOrEnd(t)
    requires pos <= |s| && s[pos..] == BlockText(n, ls, fs) + w + t
    ensures pos < |s| - |t|
    ensures FindAll(BlockPattern(ls), s, pos)
         == [Found(pos, |s| - |t|, Captures(fs, w))] + FindAll(BlockPattern(ls), s, |s| - |t|)
  {
    BlockMatch(n, ls, fs, w, t);
  }

  /** A line break between blocks is skipped by the scan. */
  lemma SkipBreak(p: Pattern, s: string, pos: nat)
    requires Anchored(p) && p[0] == Char('[') && pos < |s| && s[pos] == '\n'
    ensures FindAll(p, s, pos) == FindAll(p, s, pos + 1)
  {
    assert s[pos..][0] == '\n';
  }

  /** Trailing whitespace holds no match. */
  lemma NoMatchInSpaces(p: Pattern, s: string, pos: nat, w: string)
    requires Anchored(p) && p[0] == Char('[') && pos <= |s| && s[pos..] == w && AllSpace(w)
    ensures FindAll(p, s, pos) == []
  {
    forall q | pos <= q < |s| ensures s[q] != '[' {
      assert s[q] == w[q - pos];
    }
    NoBracketNoMatch(p, s, pos);
  }

  /** Every block has one value per label, and each fits on its line. */
  predicate FieldListsGood(ls: seq<string>, fss: seq<seq<string>>) {
    forall k :: 0 <= k < |fss| ==>
      |fss[k]| == |ls| && forall i :: 0 <= i < |ls| ==> GoodField(fss[k][i])
  }

  lemma FieldListsGoodSplit(ls: seq<string>, fss: seq<seq<string>>)
    requires fss != [] && FieldListsGood(ls, fss)
    ensures |fss[0]| == |ls| && forall i :: 0 <= i < |ls| ==> GoodField(fss[0][i])
    ensures FieldListsGood(ls, fss[1..])
  {
    assert forall k :: 0 <= k < |fss| - 1 ==> fss[1..][k] == fss[k + 1];
  }

  /**
   * The matches carry the captures of the rendered blocks, one match per
   * block; only the last one has the trailing whitespace in its last group.
   */
  predicate CapturesOf(found: seq<Found>, fss: seq<seq<string>>, w: string)
    decreases |fss|
  {
    && |found| == |fss|
    && (fss != [] ==>
          && fss[0] != []
          && found[0].groups == Captures(fss[0], if |fss| == 1 then w else [])
          && CapturesOf(found[1..], fss[1..], w))
  }

  /** Match k carries the captures of block k. */
  lemma {:induction false} CapturesAt(found: seq<Found>, fss: seq<seq<string>>, w: string, k: nat)
    requires CapturesOf(found, fss, w) && k < |fss|
    ensures |found| == |fss| && fss[k] != []
    ensures found[k].groups == Captures(fss[k], if k == |fss| - 1 then w else [])
    decreases k
  {
    if k > 0 {
      CapturesAt(found[1..], fss[1..], w, k - 1);
    }
  }

  lemma CapturesCons(x: Found, found: seq<Found>, fss: seq<seq<string>>, w: string)
    requires |fss| > 1 && fss[0] != [] && x.groups == Captures(fss[0], [])
    requires CapturesOf(found, fss[1..], w)
    ensures CapturesOf([x] + found, fss, w)
  {
    assert ([x] + found)[1..] == found;
  }

  /** The scan is over once the end of the text is reached. */
  lemma FindAllAtEnd(p: Pattern, s: string)
    requires Anchored(p)
    ensures FindAll(p, s, |s|) == []
  {
  }

  lemma BreakBetween(a: string, b: string, w: string)
    ensures a + "\n" + b + w == a + [] + ("\n" + (b + w))
  {
  }

  /** The rendering of several blocks is the first block, a line break and the rendering of the rest. */
  lemma BlocksNext(ls: seq<string>, fss: seq<seq<string>>, n: nat, w: string)
    requires |fss| > 1 && forall k :: 0 <= k < |fss| ==> |fss[k]| == |ls|
    ensures NextOrEnd("\n" + (Blocks(ls, fss[1..], n + 1) + w))
    ensures Blocks(ls, fss, n) + w == BlockText(n, ls, fss[0]) + [] + ("\n" + (Blocks(ls, fss[1..], n + 1) + w))
  {
    BlocksStartWithHeader(ls, fss[1..], n + 1, w);
    HeaderAfterBreak(Blocks(ls, fss[1..], n + 1) + w);
    BreakBetween(BlockText(n, ls, fss[0]), Blocks(ls, fss[1..], n + 1), w);
  }

  lemma SuffixAfter(s: string, pos: nat, a: string, t: string)
    requires pos <= |s| && s[pos..] == a + t
    ensures s[|s| - |t|..] == t
  {
    assert s[|s| - |t|..] == s[pos..][|a|..];
  }

  lemma BreakThen(s: string, pos: nat, x: string)
    requires pos <= |s| && s[pos..] == "\n" + x
    ensures pos < |s| && s[pos] == '\n' && s[pos + 1..] == x
  {
    assert s[pos] == s[pos..][0];
    assert s[pos + 1..] == s[pos..][1..];
  }

  /** `findall` over one block and trailing whitespace reports that block alone. */
  lemma FindAllLast(ls: seq<string>, s: string, pos: nat, fs: seq<string>, n: nat, w: string)
    requires ls != [] && forall i :: 0 <= i < |ls| ==> GoodLabel(ls[i])
    requires FieldListsGood(ls, [fs])
    requires AllSpace(w) && pos <= |s| && s[pos..] == Blocks(ls, [fs], n) + w
    ensures CapturesOf(FindAll(BlockPattern(ls), s, pos), [fs], w)
  {
    assert [fs][0] == fs;
    assert s[pos..] == BlockText(n, ls, fs) + w + [];
    FindAllBlock(ls, s, pos, n, fs, w, []);
    FindAllAtEnd(BlockPattern(ls), s);
  }

  /** Past the line break that ends a block and its match, the scan goes on as before. */
  lemma ScanOn(p: Pattern, s: string, pos: nat, end: nat, x: Found)
    requires Anchored(p) && p[0] == Char('[') && pos <= end < |s| && s[end] == '\n'
    requires FindAll(p, s, pos) == [x] + FindAll(p, s, end)
    ensures FindAll(p, s, pos) == [x] + FindAll(p, s, end + 1)
  {
    SkipBreak(p, s, end);
  }

  /** `findall` at a block followed by a line break reports the block, up to the break at `end`, and goes on after it. */
  lemma FindAllNext(ls: seq<string>, s: string, pos: nat, fs: seq<string>, n: nat, later: string)
      returns (end: nat)
    requires |ls| == |fs| > 0 && forall i :: 0 <= i < |ls| ==> GoodLabel(ls[i])
    requires forall i :: 0 <= i < |fs| ==> GoodField(fs[i])
    requires NextOrEnd("\n" + later)
    requires pos <= |s| && s[pos..] == BlockText(n, ls, fs) + [] + ("\n" + later)
    ensures pos < end < |s| && s[end + 1..] == later
    ensures FindAll(BlockPattern(ls), s, pos)
         == [Found(pos, end, Captures(fs, []))] + FindAll(BlockPattern(ls), s, end + 1)
  {
    var t := "\n" + later;
    FindAllBlock(ls, s, pos, n, fs, [], t);
    SuffixAfter(s, pos, BlockText(n, ls, fs) + [], t);
    end := |s| - |t|;
    BreakThen(s, end, later);
    ScanOn(BlockPattern(ls), s, pos, end, Found(pos, end, Captures(fs, [])));
  }

  /** `findall` over several blocks reports the first one and goes on with the others after the line break `end`. */
  lemma NextBlock(ls: seq<string>, s: string, pos: nat, fss: seq<seq<string>>, n: nat, w: string)
      returns (end: nat)
    requires ls != [] && forall i :: 0 <= i < |ls| ==> GoodLabel(ls[i])
    requires |fss| > 1 && FieldListsGood(ls, fss)
    requires pos <= |s| && s[pos..] == Blocks(ls, fss, n) + w
    ensures pos < end < |s| && s[end + 1..] == Blocks(ls, fss[1..], n + 1) + w
    ensures FieldListsGood(ls, fss[1..]) && fss[0] != []
    ensures FindAll(BlockPattern(ls), s, pos)
         == [Found(pos, end, Captures(fss[0], []))] + FindAll(BlockPattern(ls), s, end + 1)
  {
    BlocksNext(ls, fss, n, w);
    FieldListsGoodSplit(ls, fss);
    end := FindAllNext(ls, s, pos, fss[0], n, Blocks(ls, fss[1..], n + 1) + w);
  }

  /** `findall` over a rendering of blocks of one layout reports their captures, in order. */
  lemma {:induction false} FindAllBlocks(ls: seq<string>, s: string, pos: nat, fss: seq<seq<string>>, n: nat, w: string)
    requires ls != [] && forall i :: 0 <= i < |ls| ==> GoodLabel(ls[i])
    requires FieldListsGood(ls, fss)
    requires AllSpace(w) && pos <= |s| && s[pos..] == Blocks(ls, fss, n) + w
    ensures CapturesOf(FindAll(BlockPattern(ls), s, pos), fss, w)
    decreases |fss|
  {
    var p := BlockPattern(ls);
    if fss == [] {
      EmptyThen(w);
      NoMatchInSpaces(p, s, pos, w);
    } else if |fss| == 1 {
      Single(fss);
      FindAllLast(ls, s, pos, fss[0], n, w);
    } else {
      var end := NextBlock(ls, s, pos, fss, n, w);
      FindAllBlocks(ls, s, end + 1, fss[1..], n + 1, w);
      CapturesCons(Found(pos, end, Captures(fss[0], [])), FindAll(BlockPattern(ls), s, end + 1), fss, w);
    }
  }

  /** Records built from the captures of rendered records are those records. */
  lemma RecordsOfCaptures(questionType: string, found: seq<Found>, rs: seq<Record>, w: string)
    requires CapturesOf(found, FieldLists(rs), w) && AllSpace(w)
    requires forall k :: 0 <= k < |rs| ==> WellFormed(questionType, rs[k])
    ensures forall k :: 0 <= k < |found| ==> |found[k].groups| == |Labels(questionType)|
    ensures Records(questionType, found) == rs
  {
    forall k | 0 <= k < |found|
      ensures |found[k].groups| == |Labels(questionType)|
      ensures RecordOf(questionType, found[k].groups) == rs[k]
    {
      CapturesAt(found, FieldLists(rs), w, k);
      RecordOfCaptures(questionType, rs[k], if k == |rs| - 1 then w else []);
    }
    var parsed := Records(questionType, found);
    forall k | 0 <= k < |found|
      ensures parsed[k] == rs[k]
    {
      RecordsAt(questionType, found, k);
    }
  }

  /**
   * Round trip: well-formed records of the question type's layout, rendered
   * as blocks and followed by any whitespace, parse back to themselves.
   */
  lemma ParseRender(questionType: string, rs: seq<Record>, n: nat, w: string)
    requires forall k :: 0 <= k < |rs| ==> WellFormed(questionType, rs[k])
    requires AllSpace(w)
    ensures Parse(Render(questionType, rs, n) + w, questionType) == rs
  {
    var s := Render(questionType, rs, n) + w;
    var ls := Labels(questionType);
    var fss := FieldLists(rs);
    LabelsAreGood();
    forall k | 0 <= k < |rs|
      ensures |fss[k]| == |ls| && forall i :: 0 <= i < |ls| ==> GoodField(fss[k][i])
    {
      ToRecordFieldsOf(questionType, rs[k]);
    }
    assert s[0..] == s;
    FindAllBlocks(ls, s, 0, fss, n, w);
    RecordsOfCaptures(questionType, FindAll(PatternFor(questionType), s, 0), rs, w);
  }

  /** One record rendered as a block and followed by a line break parses back to itself. */
  lemma ParseRenderOne(questionType: string, r: Record, n: nat, w: string)
    requires WellFormed(questionType, r) && w == "\n"
    ensures Parse(Render(questionType, [r], n) + w, questionType) == [r]
  {
    assert IsSpace(w[0]);
    ParseRender(questionType, [r], n, w);
  }

}
