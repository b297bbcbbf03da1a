/**
 * Character classes and string helpers shared by the model: Python's notion
 * of whitespace (used by `str.strip()` and by `\s` in a str pattern), ASCII
 * digits, ASCII case folding, `str.strip()` itself and decimal rendering of
 * integers as an f-string prints them.
 */
module Text {

  /** Python's `str.isspace()`; the same set is matched by `\s` in a str pattern. */
  predicate IsSpace(c: char) {
    var n := c as int;
    (0x09 <= n <= 0x0D) || (0x1C <= n <= 0x20) || n == 0x85 || n == 0xA0 || n == 0x1680
    || (0x2000 <= n <= 0x200A) || n == 0x2028 || n == 0x2029 || n == 0x202F || n == 0x205F
    || n == 0x3000
  }

  predicate AllSpace(s: string) {
    forall i :: 0 <= i < |s| ==> IsSpace(s[i])
  }

  predicate IsDigit(c: char) {
    '0' <= c <= '9'
  }

  predicate AllDigits(s: string) {
    forall i :: 0 <= i < |s| ==> IsDigit(s[i])
  }

  /** ASCII lower-casing: how a pattern compiled with `re.IGNORECASE` compares letters. */
  function Lower(c: char): char {
    if 'A' <= c <= 'Z' then (c as int + 32) as char else c
  }

  /** `str.lower()` on ASCII letters: the same letters, none of them upper-case. */
  function LowerAll(s: string): (r: string)
    ensures |r| == |s|
    ensures forall i :: 0 <= i < |r| ==> Lower(r[i]) == Lower(s[i]) && !('A' <= r[i] <= 'Z')
  {
    seq(|s|, i requires 0 <= i < |s| => Lower(s[i]))
  }

  /** `t` begins with `w` when letters are compared case-insensitively. */
  predicate FoldPrefix(t: string, w: string) {
    |w| <= |t| && forall i :: 0 <= i < |w| ==> Lower(t[i]) == Lower(w[i])
  }

  /** A string that `str.strip()` leaves unchanged. */
  predicate IsStripped(s: string) {
    s == [] || (!IsSpace(s[0]) && !IsSpace(s[|s| - 1]))
  }

  /** `s` without its leading whitespace. */
  function TrimStart(s: string): (r: string)
    ensures |r| <= |s|
  {
    if s != [] && IsSpace(s[0]) then TrimStart(s[1..]) else s
  }

  /** `s` without its trailing whitespace. */
  function TrimEnd(s: string): (r: string)
    ensures |r| <= |s|
  {
    if s != [] && IsSpace(s[|s| - 1]) then TrimEnd(s[..|s| - 1]) else s
  }

  /** `TrimStart` removes a run of whitespace and stops at a non-space character. */
  lemma {:induction false} TrimStartFacts(s: string)
    ensures var r := TrimStart(s);
      && r == s[|s| - |r|..] && AllSpace(s[..|s| - |r|])
      && (r == [] || !IsSpace(r[0]))
    decreases |s|
  {
    if s != [] && IsSpace(s[0]) {
      TrimStartFacts(s[1..]);
      var r := TrimStart(s);
      assert s[1..][|s| - 1 - |r|..] == s[|s| - |r|..];
      assert s[..|s| - |r|] == [s[0]] + s[1..][..|s| - 1 - |r|];
    }
  }

  /** `TrimEnd` removes a run of whitespace and stops at a non-space character. */
  lemma {:induction false} TrimEndFacts(s: string)
    ensures var r := TrimEnd(s);
      && r == s[..|r|] && AllSpace(s[|r|..])
      && (r == [] || !IsSpace(r[|r| - 1]))
    decreases |s|
  {
    if s != [] && IsSpace(s[|s| - 1]) {
      TrimEndFacts(s[..|s| - 1]);
      var r := TrimEnd(s);
      assert s[..|s| - 1][..|r|] == s[..|r|];
      assert s[|r|..] == s[..|s| - 1][|r|..] + [s[|s| - 1]];
    }
  }

  /** Python's `str.strip()`. */
  function Strip(s: string): (r: string)
    ensures IsStripped(r) && |r| <= |s|
  {
    TrimStartFacts(s);
    TrimEndFacts(TrimStart(s));
    TrimEnd(TrimStart(s))
  }

  /**
   * What `strip()` removes: the result is a slice of `s` that has only
   * whitespace around it in `s`.
   */
  lemma StripIsSlice(s: string)
    ensures var r := Strip(s);
      exists lo :: 0 <= lo && lo + |r| <= |s| && r == s[lo..lo + |r|]
                   && AllSpace(s[..lo]) && AllSpace(s[lo + |r|..])
  {
    var t := TrimStart(s);
    var u := TrimEnd(t);
    var lo := |s| - |t|;
    TrimStartFacts(s);
    TrimEndFacts(t);
    assert u == s[lo..lo + |u|];
    assert AllSpace(s[..lo]);
    assert AllSpace(s[lo + |u|..]) by {
      assert s[lo + |u|..] == t[|u|..];
    }
  }

  lemma StrippedIsFixed(s: string)
    requires IsStripped(s)
    ensures Strip(s) == s
  {
  }

  lemma {:induction false} TrimEndSpaceTail(f: string, w: string)
    requires f != [] && !IsSpace(f[|f| - 1]) && AllSpace(w)
    ensures TrimEnd(f + w) == f
    decreases |w|
  {
    if w == [] {
      assert f + w == f;
    } else {
      var w' := w[..|w| - 1];
      assert (f + w)[..|f + w| - 1] == f + w';
      assert IsSpace((f + w)[|f + w| - 1]) by {
        assert (f + w)[|f + w| - 1] == w[|w| - 1];
      }
      TrimEndSpaceTail(f, w');
    }
  }

  /** Whitespace that follows a stripped field is removed again by `strip()`. */
  lemma StripSpaceTail(f: string, w: string)
    requires f != [] && IsStripped(f) && AllSpace(w)
    ensures Strip(f + w) == f
  {
    assert TrimStart(f + w) == f + w by {
      assert (f + w)[0] == f[0];
    }
    TrimEndSpaceTail(f, w);
  }

  function DigitChar(d: nat): (c: char)
    requires d < 10
    ensures IsDigit(c)
  {
    ('0' as int + d) as char
  }

  function DigitValue(c: char): (d: nat)
    requires IsDigit(c)
    ensures d < 10 && DigitChar(d) == c
  {
    c as int - '0' as int
  }

  /** Decimal rendering of an integer as `f"{n}"` prints it: at least one digit, no leading zero. */
  function ShowNat(n: nat): (r: string)
    ensures r != [] && AllDigits(r)
    ensures r[0] == '0' ==> n == 0
    decreases n
  {
    if n < 10 then [DigitChar(n)] else ShowNat(n / 10) + [DigitChar(n % 10)]
  }

  /** The value of a string of decimal digits. */
  function ReadNat(s: string): nat
    requires AllDigits(s)
  {
    if s == [] then 0 else 10 * ReadNat(s[..|s| - 1]) + DigitValue(s[|s| - 1])
  }

  /** Reading back a rendered number gives the number. */
  lemma {:induction false} ReadShowNat(n: nat)
    ensures ReadNat(ShowNat(n)) == n
    decreases n
  {
    if n >= 10 {
      var s := ShowNat(n);
      assert s[..|s| - 1] == ShowNat(n / 10);
      ReadShowNat(n / 10);
      assert DigitValue(DigitChar(n % 10)) == n % 10 by {
        assert DigitChar(n % 10) as int - '0' as int == n % 10;
      }
    } else {
      var s := ShowNat(n);
      assert s[..|s| - 1] == [];
      assert DigitChar(n) as int - '0' as int == n;
    }
  }

}
