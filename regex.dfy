/**
 * The fragment of Python's `re` that the two question layouts use, compiled
 * with `re.IGNORECASE | re.DOTALL`: literal characters, `\d+`, `\s*`, the
 * lazy `.*?` (plain or as a capturing group) and the lookahead
 * `(?=<literal>|\Z)`.
 *
 * Matching follows the backtracking engine's priority order: a greedy
 * repetition tries its longest run first and gives characters back one at a
 * time, a lazy one tries the shortest span first and extends it one character
 * at a time, and the first alternative that lets the rest of the pattern
 * match wins. A match works on the text that remains at the current position
 * (a pattern without lookbehind never looks back), and reports how many
 * characters it left unconsumed together with the captured groups.
 */
module Regex {
  import opened Wrappers
  import opened Text

  datatype Atom =
    | Char(c: char)              // a literal character, compared case-insensitively
    | Digits                     // \d+
    | Spaces                     // \s*
    | Any(group: bool)           // .*? with DOTALL, captured as a group when `group`
    | AheadOrEnd(ahead: string)  // (?=ahead|\Z), `ahead` compared case-insensitively

  type Pattern = seq<Atom>

  /** A successful match: the number of characters it left after it, and its groups. */
  datatype Hit = Hit(rest: nat, groups: seq<string>)

  /** Where `findall` found a match in the whole text, and its groups. */
  datatype Found = Found(start: nat, end: nat, groups: seq<string>)

  /** A pattern that spells out `w` character by character. */
  function Lits(w: string): (p: Pattern)
    ensures |p| == |w| && forall i :: 0 <= i < |w| ==> p[i] == Char(w[i])
  {
    seq(|w|, i requires 0 <= i < |w| => Char(w[i]))
  }

  /** The number of capturing groups of a pattern. */
  function GroupCount(p: Pattern): nat {
    if p == [] then 0 else (if p[0] == Any(true) then 1 else 0) + GroupCount(p[1..])
  }

  /** Length of the run of whitespace that starts `t`. */
  function SpaceSpan(t: string): (k: nat)
    ensures k <= |t| && AllSpace(t[..k]) && (k < |t| ==> !IsSpace(t[k]))
  {
    if t != [] && IsSpace(t[0]) then 1 + SpaceSpan(t[1..]) else 0
  }

  /** Length of the run of digits that starts `t`. */
  function DigitSpan(t: string): (k: nat)
    ensures k <= |t| && AllDigits(t[..k]) && (k < |t| ==> !IsDigit(t[k]))
  {
    if t != [] && IsDigit(t[0]) then 1 + DigitSpan(t[1..]) else 0
  }

  /** The first match of `p` at the start of `t`, in the backtracking engine's priority order. */
  function Match(p: Pattern, t: string): (r: Option<Hit>)
    ensures r.Some? ==> r.value.rest <= |t| && |r.value.groups| == GroupCount(p)
    ensures r.Some? && p != [] && p[0].Char? ==> r.value.rest < |t|
    decreases |p|, 2, 0
  {
    if p == [] then Some(Hit(|t|, []))
    else match p[0]
      case Char(c) =>
        if t != [] && Lower(t[0]) == Lower(c) then Match(p[1..], t[1..]) else None
      case Digits =>
        if t != [] && IsDigit(t[0]) then Greedy(p, t, 1, DigitSpan(t)) else None
      case Spaces =>
        Greedy(p, t, 0, SpaceSpan(t))
      case Any(_) =>
        Lazy(p, t, 0)
      case AheadOrEnd(w) =>
        if t == [] || FoldPrefix(t, w) then Match(p[1..], t) else None
  }

  /**
   * A greedy repetition that has consumed `k` characters and may give back
   * down to `lo`: the rest of the pattern is tried after `k`, then after
   * `k - 1`, and so on.
   */
  function Greedy(p: Pattern, t: string, lo: nat, k: nat): (r: Option<Hit>)
    requires p != [] && lo <= k <= |t|
    ensures r.Some? ==> r.value.rest <= |t| - lo && |r.value.groups| == GroupCount(p[1..])
    decreases |p|, 1, k
  {
    match Match(p[1..], t[k..])
    case Some(h) => Some(h)
    case None => if lo < k then Greedy(p, t, lo, k - 1) else None
  }

  /**
   * A lazy `.*?` that has consumed `k` characters: the rest of the pattern is
   * tried after `k`, then after `k + 1`, up to the end of the text.
   */
  function Lazy(p: Pattern, t: string, k: nat): (r: Option<Hit>)
    requires p != [] && p[0].Any? && k <= |t|
    ensures r.Some? ==> r.value.rest <= |t| - k && |r.value.groups| == GroupCount(p)
    decreases |p|, 1, |t| - k
  {
    match Match(p[1..], t[k..])
    case Some(h) => Some(Hit(h.rest, if p[0].group then [t[..k]] + h.groups else h.groups))
    case None => if k < |t| then Lazy(p, t, k + 1) else None
  }

  /** Patterns that begin with a literal character never match the empty string. */
  predicate Anchored(p: Pattern) {
    p != [] && p[0].Char?
  }

  /** No match of `p` starts at any position from `lo` up to (excluding) `hi`. */
  predicate NoMatchIn(p: Pattern, s: string, lo: nat, hi: nat) {
    forall q: nat :: lo <= q < hi && q <= |s| ==> Match(p, s[q..]).None?
  }

  /**
   * `re.findall`: scan `s` from `pos`, take the first match that starts at the
   * earliest position, and go on from where it ended.
   */
  function FindAll(p: Pattern, s: string, pos: nat): (r: seq<Found>)
    requires Anchored(p) && pos <= |s|
    ensures forall k :: 0 <= k < |r| ==> pos <= r[k].start < r[k].end <= |s|
    ensures forall k :: 0 <= k < |r| ==> |r[k].groups| == GroupCount(p)
    decreases |s| - pos
  {
    match Match(p, s[pos..])
    case Some(h) =>
      var end := |s| - h.rest;
      [Found(pos, end, h.groups)] + FindAll(p, s, end)
    case None =>
      if pos < |s| then FindAll(p, s, pos + 1) else []
  }

  /** Each found match is the engine's match at its start position. */
  predicate AreHits(p: Pattern, s: string, r: seq<Found>) {
    forall k :: 0 <= k < |r| ==>
      r[k].start <= r[k].end <= |s|
      && Match(p, s[r[k].start..]) == Some(Hit(|s| - r[k].end, r[k].groups))
  }

  /** Every match `findall` reports is the engine's match at its start position. */
  lemma {:induction false} FindAllHits(p: Pattern, s: string, pos: nat)
    requires Anchored(p) && pos <= |s|
    ensures AreHits(p, s, FindAll(p, s, pos))
    decreases |s| - pos
  {
    var r := FindAll(p, s, pos);
    match Match(p, s[pos..])
    case Some(h) =>
      var end: nat := |s| - h.rest;
      var rest := FindAll(p, s, end);
      assert r == [Found(pos, end, h.groups)] + rest;
      FindAllHits(p, s, end);
      forall k | 0 <= k < |r|
        ensures Match(p, s[r[k].start..]) == Some(Hit(|s| - r[k].end, r[k].groups))
      {
        if k == 0 {
          assert r[k] == Found(pos, end, h.groups);
          assert s[r[k].start..] == s[pos..];
          assert |s| - r[k].end == h.rest;
          assert Match(p, s[pos..]) == Some(Hit(h.rest, h.groups));
        } else {
          assert r[k] == rest[k - 1];
        }
      }
    case None =>
      if pos < |s| {
        assert r == FindAll(p, s, pos + 1);
        FindAllHits(p, s, pos + 1);
      }
  }

  /** Matches in text order that do not overlap. */
  predicate InOrder(r: seq<Found>) {
    forall k :: 0 <= k < |r| - 1 ==> r[k].end <= r[k + 1].start
  }

  /** No match starts in a gap between two consecutive found matches, or after the last one. */
  predicate NoneInGaps(p: Pattern, s: string, r: seq<Found>) {
    && (forall k :: 0 <= k < |r| - 1 ==> NoMatchIn(p, s, r[k].end, r[k + 1].start))
    && (r != [] ==> NoMatchIn(p, s, r[|r| - 1].end, |s| + 1))
  }

  /** The matches `findall` reports are in text order and do not overlap. */
  lemma {:induction false} FindAllOrdered(p: Pattern, s: string, pos: nat)
    requires Anchored(p) && pos <= |s|
    ensures InOrder(FindAll(p, s, pos))
    decreases |s| - pos
  {
    var r := FindAll(p, s, pos);
    match Match(p, s[pos..])
    case Some(h) =>
      var end := |s| - h.rest;
      var rest := FindAll(p, s, end);
      assert r == [Found(pos, end, h.groups)] + rest;
      FindAllOrdered(p, s, end);
      forall k | 0 <= k < |r| - 1 ensures r[k].end <= r[k + 1].start {
        assert r[k + 1] == rest[k];
        if k > 0 {
          assert r[k] == rest[k - 1];
        } else {
          assert r[k].end == end <= rest[0].start;
        }
      }
    case None =>
      if pos < |s| {
        assert r == FindAll(p, s, pos + 1);
        FindAllOrdered(p, s, pos + 1);
      }
  }

  /** `findall` skips no match: none starts before the first match it reports. */
  lemma {:induction false} FindAllLeftmost(p: Pattern, s: string, pos: nat)
    requires Anchored(p) && pos <= |s|
    ensures NoMatchIn(p, s, pos, if FindAll(p, s, pos) == [] then |s| + 1 else FindAll(p, s, pos)[0].start)
    decreases |s| - pos
  {
    match Match(p, s[pos..])
    case Some(h) =>
    case None =>
      if pos < |s| {
        FindAllLeftmost(p, s, pos + 1);
      }
  }

  /** `findall` skips no match: none starts in a gap between two matches it reports, or after the last. */
  lemma {:induction false} FindAllGaps(p: Pattern, s: string, pos: nat)
    requires Anchored(p) && pos <= |s|
    ensures NoneInGaps(p, s, FindAll(p, s, pos))
    decreases |s| - pos
  {
    var r := FindAll(p, s, pos);
    match Match(p, s[pos..])
    case Some(h) =>
      var end := |s| - h.rest;
      var rest := FindAll(p, s, end);
      assert r == [Found(pos, end, h.groups)] + rest;
      FindAllGaps(p, s, end);
      FindAllLeftmost(p, s, end);
      forall k | 0 <= k < |r| - 1 ensures NoMatchIn(p, s, r[k].end, r[k + 1].start) {
        assert r[k + 1] == rest[k];
        if k > 0 {
          assert r[k] == rest[k - 1];
        }
      }
      if rest != [] {
        assert r[|r| - 1] == rest[|rest| - 1];
      }
    case None =>
      if pos < |s| {
        FindAllGaps(p, s, pos + 1);
      }
  }

  /** Matching a literal prefix: the text must begin with it, and the rest of the pattern continues after it. */
  lemma {:induction false} LitsThen(w: string, q: Pattern, t: string)
    ensures Match(Lits(w) + q, t) == if FoldPrefix(t, w) then Match(q, t[|w|..]) else None
    decreases |w|
  {
    if w == [] {
      assert Lits(w) + q == q;
    } else {
      var p := Lits(w) + q;
      assert p[0] == Char(w[0]);
      assert p[1..] == Lits(w[1..]) + q;
      if t != [] && Lower(t[0]) == Lower(w[0]) {
        LitsThen(w[1..], q, t[1..]);
        assert FoldPrefix(t, w) == FoldPrefix(t[1..], w[1..]) by {
          if FoldPrefix(t[1..], w[1..]) {
            forall i | 0 <= i < |w| ensures Lower(t[i]) == Lower(w[i]) {
              if i > 0 {
                assert t[1..][i - 1] == t[i] && w[1..][i - 1] == w[i];
              }
            }
          }
          if FoldPrefix(t, w) {
            forall i | 0 <= i < |w| - 1 ensures Lower(t[1..][i]) == Lower(w[1..][i]) {
              assert t[1..][i] == t[i + 1] && w[1..][i] == w[i + 1];
            }
          }
        }
        if FoldPrefix(t, w) {
          assert t[1..][|w| - 1..] == t[|w|..];
        }
      } else {
        assert !FoldPrefix(t, w) by {
          if |w| <= |t| {
            assert Lower(t[0]) != Lower(w[0]);
          }
        }
      }
    }
  }

  /** When the text spells out `w` itself, the literal prefix is consumed exactly. */
  lemma LitsExact(w: string, q: Pattern, t: string)
    ensures Match(Lits(w) + q, w + t) == Match(q, t)
  {
    LitsThen(w, q, w + t);
    assert (w + t)[|w|..] == t;
    assert FoldPrefix(w + t, w) by {
      forall i | 0 <= i < |w| ensures Lower((w + t)[i]) == Lower(w[i]) {
        assert (w + t)[i] == w[i];
      }
    }
  }

  /**
   * A lazy `.*?` stops at the first position `e` from which the rest of the
   * pattern matches; its group is the text it skipped.
   */
  lemma {:induction false} LazyStopsAtFirst(p: Pattern, t: string, k: nat, e: nat)
    requires p != [] && p[0].Any? && k <= e <= |t|
    requires forall j :: k <= j < e ==> Match(p[1..], t[j..]).None?
    requires Match(p[1..], t[e..]).Some?
    ensures Lazy(p, t, k) == Some(Hit(Match(p[1..], t[e..]).value.rest,
              if p[0].group then [t[..e]] + Match(p[1..], t[e..]).value.groups
              else Match(p[1..], t[e..]).value.groups))
    decreases e - k
  {
    if k < e {
      assert Match(p[1..], t[k..]).None?;
      assert Lazy(p, t, k) == Lazy(p, t, k + 1);
      LazyStopsAtFirst(p, t, k + 1, e);
    }
  }

  /** A lazy `.*?` fails when the rest of the pattern matches at no position from `k` on. */
  lemma {:induction false} LazyFails(p: Pattern, t: string, k: nat)
    requires p != [] && p[0].Any? && k <= |t|
    requires forall j :: k <= j <= |t| ==> Match(p[1..], t[j..]).None?
    ensures Lazy(p, t, k).None?
    decreases |t| - k
  {
    if k < |t| {
      LazyFails(p, t, k + 1);
    }
  }

  /** A greedy repetition succeeds only if the rest of the pattern matches after some run length it tried. */
  lemma {:induction false} GreedyWitness(p: Pattern, t: string, lo: nat, k: nat)
    requires p != [] && lo <= k <= |t|
    requires Greedy(p, t, lo, k).Some?
    ensures exists j :: lo <= j <= k && Match(p[1..], t[j..]).Some?
    decreases k
  {
    if Match(p[1..], t[k..]).None? {
      GreedyWitness(p, t, lo, k - 1);
    }
  }

  /** A pattern that begins with `[` matches nowhere in a stretch of text without `[`. */
  lemma {:induction false} NoBracketNoMatch(p: Pattern, s: string, pos: nat)
    requires Anchored(p) && p[0] == Char('[') && pos <= |s|
    requires forall q :: pos <= q < |s| ==> s[q] != '['
    ensures FindAll(p, s, pos) == []
    decreases |s| - pos
  {
    if pos < |s| {
      assert Lower(s[pos..][0]) != Lower('[');
      NoBracketNoMatch(p, s, pos + 1);
    }
  }

  lemma {:induction false} GroupCountAppend(a: Pattern, b: Pattern)
    ensures GroupCount(a + b) == GroupCount(a) + GroupCount(b)
    decreases |a|
  {
    if a == [] {
      assert a + b == b;
    } else {
      assert (a + b)[0] == a[0];
      assert (a + b)[1..] == a[1..] + b;
      GroupCountAppend(a[1..], b);
    }
  }

  lemma {:induction false} GroupCountLits(w: string)
    ensures GroupCount(Lits(w)) == 0
    decreases |w|
  {
    if w != [] {
      assert Lits(w)[1..] == Lits(w[1..]);
      GroupCountLits(w[1..]);
    }
  }

}
