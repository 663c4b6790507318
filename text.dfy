/** The Python string built-ins the flashcard program relies on: `str.strip`,
    `str.lower` (for the single-letter answers it compares against), `int()` on a
    line of input, and the decimal rendering of an integer in an f-string. */
module Text {

  import opened Options

  /** Python's `str.isspace` for one character. */
  predicate IsSpace(c: char) {
    c == ' ' || '\t' <= c <= '\r' || '\U{1C}' <= c <= '\U{1F}' || c == '\U{85}' || c == '\U{A0}'
    || c == '\U{1680}' || '\U{2000}' <= c <= '\U{200A}' || c == '\U{2028}' || c == '\U{2029}'
    || c == '\U{202F}' || c == '\U{205F}' || c == '\U{3000}'
  }

  /** The information separators U+001C to U+001F: white space to `str.isspace`,
      but not to `int()`. */
  predicate IsSeparator(c: char) {
    '\U{1C}' <= c <= '\U{1F}'
  }

  /** The white space a trim skips. `strip` skips every `str.isspace` character.
      `int()` (`numeric`) turns non-ASCII white space into spaces and then skips
      only ASCII white space, so it does not skip the separators. */
  predicate Blank(c: char, numeric: bool) {
    IsSpace(c) && !(numeric && IsSeparator(c))
  }

  predicate AllBlank(s: string, numeric: bool) {
    forall i :: 0 <= i < |s| ==> Blank(s[i], numeric)
  }

  /** No white space at either end. */
  predicate Trimmed(s: string, numeric: bool) {
    s == [] || (!Blank(s[0], numeric) && !Blank(s[|s| - 1], numeric))
  }

  function TrimStart(s: string, numeric: bool): string {
    if s != [] && Blank(s[0], numeric) then TrimStart(s[1..], numeric) else s
  }

  function TrimEnd(s: string, numeric: bool): string {
    if s != [] && Blank(s[|s| - 1], numeric) then TrimEnd(s[..|s| - 1], numeric) else s
  }

  /** `s.strip()`: the text with the white space at both ends removed. */
  function Strip(s: string): string {
    TrimEnd(TrimStart(s, false), false)
  }

  /** The white space `int()` skips around the number. */
  function IntStrip(s: string): string {
    TrimEnd(TrimStart(s, true), true)
  }

  /** `TrimStart` removes a leading run of white space and stops at the first
      other character. */
  lemma {:induction false} TrimStartSpec(s: string, numeric: bool)
    ensures var r := TrimStart(s, numeric);
      |r| <= |s| && r == s[|s| - |r|..] && (r == [] || !Blank(r[0], numeric))
      && AllBlank(s[..|s| - |r|], numeric)
  {
    if s != [] && Blank(s[0], numeric) {
      TrimStartSpec(s[1..], numeric);
      var r := TrimStart(s, numeric);
      assert s[..|s| - |r|] == [s[0]] + s[1..][..|s| - 1 - |r|];
    }
  }

  /** `TrimEnd` removes a trailing run of white space. */
  lemma {:induction false} TrimEndSpec(s: string, numeric: bool)
    ensures var r := TrimEnd(s, numeric);
      |r| <= |s| && r == s[..|r|] && (r == [] || !Blank(r[|r| - 1], numeric))
      && AllBlank(s[|r|..], numeric)
  {
    if s != [] && Blank(s[|s| - 1], numeric) {
      var init := s[..|s| - 1];
      TrimEndSpec(init, numeric);
      var r := TrimEnd(s, numeric);
      assert s[|r|..] == init[|r|..] + [s[|s| - 1]];
    }
  }

  /** A trim from the front never removes a last character that is not white space. */
  lemma {:induction false} TrimStartKeepsLast(s: string, numeric: bool)
    requires s != [] && !Blank(s[|s| - 1], numeric)
    ensures var r := TrimStart(s, numeric); r != [] && r[|r| - 1] == s[|s| - 1]
  {
    if Blank(s[0], numeric) {
      TrimStartKeepsLast(s[1..], numeric);
    }
  }

  /** A trim from the back never removes a first character that is not white space. */
  lemma {:induction false} TrimEndKeepsFirst(s: string, numeric: bool)
    requires s != [] && !Blank(s[0], numeric)
    ensures var r := TrimEnd(s, numeric); r != [] && r[0] == s[0]
  {
    if Blank(s[|s| - 1], numeric) {
      TrimEndKeepsFirst(s[..|s| - 1], numeric);
    }
  }

  /** What `strip` returns has no white space at either end, is no longer than
      its input, and is empty exactly when the input is white space only. */
  lemma StripSpec(s: string)
    ensures |Strip(s)| <= |s| && Trimmed(Strip(s), false)
    ensures Strip(s) == [] <==> AllBlank(s, false)
  {
    var front := TrimStart(s, false);
    TrimStartSpec(s, false);
    TrimEndSpec(front, false);
    TrimmedBoth(s, front, TrimEnd(front, false));
  }

  lemma TrimmedBoth(s: string, front: string, r: string)
    requires front == TrimStart(s, false) && r == TrimEnd(front, false)
    requires |front| <= |s| && front == s[|s| - |front|..] && (front == [] || !Blank(front[0], false))
    requires AllBlank(s[..|s| - |front|], false)
    requires |r| <= |front| && r == front[..|r|] && (r == [] || !Blank(r[|r| - 1], false))
    requires AllBlank(front[|r|..], false)
    ensures Trimmed(r, false)
    ensures r == [] <==> AllBlank(s, false)
  {
    var lead := s[..|s| - |front|];
    var tail := front[|r|..];
    assert r != [] ==> !Blank(r[0], false) by {
      if r != [] { assert r[0] == front[0]; }
    }
    assert r == [] ==> AllBlank(s, false) by {
      if r == [] {
        assert front == tail;
        assert s == lead + front;
        AllBlankConcat(lead, front, false);
      }
    }
    assert AllBlank(s, false) ==> r == [] by {
      if AllBlank(s, false) {
        assert s == lead + front;
        assert front == r + tail;
        AllBlankConcat(lead, front, false);
        AllBlankConcat(r, tail, false);
      }
    }
  }

  lemma AllBlankConcat(a: string, b: string, numeric: bool)
    ensures AllBlank(a + b, numeric) <==> AllBlank(a, numeric) && AllBlank(b, numeric)
  {
    if AllBlank(a, numeric) && AllBlank(b, numeric) {
      forall i | 0 <= i < |a + b| ensures Blank((a + b)[i], numeric) {
        if i >= |a| { assert (a + b)[i] == b[i - |a|]; }
      }
    }
    if AllBlank(a + b, numeric) {
      forall i | 0 <= i < |a| ensures Blank(a[i], numeric) {
        assert a[i] == (a + b)[i];
      }
      forall i | 0 <= i < |b| ensures Blank(b[i], numeric) {
        assert b[i] == (a + b)[|a| + i];
      }
    }
  }

  lemma {:induction false} TrimStartPadded(pre: string, t: string, numeric: bool)
    requires AllBlank(pre, numeric) && (t == [] || !Blank(t[0], numeric))
    ensures TrimStart(pre + t, numeric) == t
    decreases |pre|
  {
    if pre != [] {
      assert (pre + t)[1..] == pre[1..] + t;
      TrimStartPadded(pre[1..], t, numeric);
    } else {
      assert pre + t == t;
    }
  }

  lemma {:induction false} TrimEndPadded(t: string, post: string, numeric: bool)
    requires AllBlank(post, numeric) && (t == [] || !Blank(t[|t| - 1], numeric))
    ensures TrimEnd(t + post, numeric) == t
    decreases |post|
  {
    if post != [] {
      assert (t + post)[..|t + post| - 1] == t + post[..|post| - 1];
      TrimEndPadded(t, post[..|post| - 1], numeric);
    } else {
      assert t + post == t;
    }
  }

  /** What `strip` keeps is exactly the text between the leading and the trailing
      white space: padding a trimmed text with white space and stripping it gives
      the text back. */
  lemma StripPadded(pre: string, t: string, post: string)
    requires AllBlank(pre, false) && AllBlank(post, false) && Trimmed(t, false)
    ensures Strip(pre + t + post) == t
  {
    if t == [] {
      assert pre + t + post == pre + post;
      AllBlankConcat(pre, post, false);
      StripSpec(pre + post);
    } else {
      assert pre + t + post == pre + (t + post);
      TrimStartPadded(pre, t + post, false);
      TrimEndPadded(t, post, false);
    }
  }

  /** `str.lower` on one character, for the ASCII letters. */
  function LowerChar(c: char): char {
    if 'A' <= c <= 'Z' then (c as int + 32) as char else c
  }

  function Lower(s: string): (r: string)
    ensures |r| == |s| && forall i :: 0 <= i < |s| ==> r[i] == LowerChar(s[i])
  {
    seq(|s|, i requires 0 <= i < |s| => LowerChar(s[i]))
  }

  /** `s.strip().lower() == c` for a lower-case letter `c`: the stripped answer is
      that one letter in either case. */
  lemma LowerStripIsLetter(s: string, c: char)
    requires 'a' <= c <= 'z'
    ensures Lower(Strip(s)) == [c] <==> Strip(s) == [c] || Strip(s) == [(c as int - 32) as char]
  {
    var t := Strip(s);
    if Lower(t) == [c] {
      assert LowerChar(t[0]) == c;
    }
  }

  predicate IsDigit(c: char) {
    '0' <= c <= '9'
  }

  function DigitValue(c: char): (d: nat)
    requires IsDigit(c)
    ensures d < 10
  {
    c as int - '0' as int
  }

  function DigitChar(d: nat): (c: char)
    requires d < 10
    ensures IsDigit(c) && DigitValue(c) == d
  {
    ('0' as int + d) as char
  }

  /** The characters `int()` accepts after the sign: decimal digits, with single
      underscores allowed between two digits. */
  predicate IsNumeral(d: string) {
    |d| > 0 && IsDigit(d[0]) && IsDigit(d[|d| - 1])
    && (forall i :: 0 <= i < |d| ==> IsDigit(d[i]) || d[i] == '_')
    && (forall i :: 0 <= i < |d| - 1 ==> d[i] == '_' ==> d[i + 1] != '_')
  }

  /** The value of a numeral, underscores skipped. */
  function NumeralValue(d: string): nat
    requires forall i :: 0 <= i < |d| ==> IsDigit(d[i]) || d[i] == '_'
  {
    if d == [] then 0
    else if d[|d| - 1] == '_' then NumeralValue(d[..|d| - 1])
    else 10 * NumeralValue(d[..|d| - 1]) + DigitValue(d[|d| - 1])
  }

  /** Python's default cap on the number of decimal digits that `int()` reads and
      `str()` writes (`sys.int_info.default_max_str_digits`); beyond it both raise
      ValueError. */
  const MaxStrDigits: nat := 4300

  /** The number of digits of a numeral, underscores not counted. */
  function DigitCount(d: string): (n: nat)
    ensures n <= |d|
  {
    if d == [] then 0
    else DigitCount(d[..|d| - 1]) + (if d[|d| - 1] == '_' then 0 else 1)
  }

  /** A numeral `int()` accepts: well formed and within the digit cap. */
  predicate Readable(d: string) {
    IsNumeral(d) && DigitCount(d) <= MaxStrDigits
  }

  /** `int(s)` for decimal input: None where Python raises ValueError. The white
      space `int()` skips (`IntStrip`) is ignored around the number, and a sign may
      lead. */
  function ParseInt(s: string): Option<int> {
    var t := IntStrip(s);
    if |t| > 0 && (t[0] == '+' || t[0] == '-') then
      if Readable(t[1..]) then
        var v: int := NumeralValue(t[1..]);
        Some(if t[0] == '-' then -v else v)
      else None
    else if Readable(t) then Some(NumeralValue(t))
    else None
  }

  /** A bare numeral is read exactly when it has at most `MaxStrDigits` digits;
      a longer one is no number to `int()`. */
  lemma NumeralLimit(d: string)
    requires IsNumeral(d)
    ensures ParseInt(d).Some? <==> DigitCount(d) <= MaxStrDigits
    ensures ParseInt(d).Some? ==> ParseInt(d).value == NumeralValue(d)
  {
    assert !Blank(d[0], true) && !Blank(d[|d| - 1], true) by {
      assert IsDigit(d[0]) && IsDigit(d[|d| - 1]);
    }
    assert IntStrip(d) == d;
  }

  /** `int()` ignores the ASCII and Unicode white space around an entry. */
  lemma ParseIntPadded(pre: string, t: string, post: string)
    requires AllBlank(pre, true) && AllBlank(post, true) && Trimmed(t, true) && t != []
    ensures ParseInt(pre + t + post) == ParseInt(t)
  {
    assert pre + t + post == pre + (t + post);
    TrimStartPadded(pre, t + post, true);
    TrimEndPadded(t, post, true);
    assert IntStrip(t) == t;
  }

  /** Unlike `strip`, `int()` does not skip a separator U+001C to U+001F: an entry
      that starts or ends with one is no number. */
  lemma SeparatorNotSkipped(s: string)
    requires s != [] && (IsSeparator(s[0]) || IsSeparator(s[|s| - 1]))
    ensures ParseInt(s).None?
  {
    var t := IntStrip(s);
    if IsSeparator(s[0]) {
      assert TrimStart(s, true) == s;
      TrimEndKeepsFirst(s, true);
      assert IsSeparator(t[0]);
    } else {
      var front := TrimStart(s, true);
      TrimStartKeepsLast(s, true);
      assert t == front;
      assert IsSeparator(t[|t| - 1]);
      if |t| > 1 {
        assert t[1..][|t| - 2] == t[|t| - 1];
      }
    }
  }

  lemma {:induction false} DigitCountAllDigits(d: string)
    requires forall i :: 0 <= i < |d| ==> IsDigit(d[i])
    ensures DigitCount(d) == |d|
  {
    if d != [] {
      DigitCountAllDigits(d[..|d| - 1]);
    }
  }

  /** The decimal digits of a natural number, as `f"{n}"` writes them. */
  function ShowNat(n: nat): (r: string)
    ensures |r| > 0 && forall i :: 0 <= i < |r| ==> IsDigit(r[i])
  {
    if n < 10 then [DigitChar(n)] else ShowNat(n / 10) + [DigitChar(n % 10)]
  }

  function Magnitude(n: int): nat {
    if n < 0 then -n else n
  }

  /** `f"{n}"` for an integer. */
  function ShowInt(n: int): (r: string)
    ensures |r| > 0
  {
    if n < 0 then "-" + ShowNat(-n) else ShowNat(n)
  }

  lemma {:induction false} NumeralValueShowNat(n: nat)
    ensures IsNumeral(ShowNat(n)) && NumeralValue(ShowNat(n)) == n
  {
    if n >= 10 {
      NumeralValueShowNat(n / 10);
      var r := ShowNat(n);
      assert r[..|r| - 1] == ShowNat(n / 10);
    }
  }

  /** `int()` reads back what `f"{n}"` writes, for every integer Python prints
      (at most `MaxStrDigits` digits). */
  lemma ParseShowInt(n: int)
    requires |ShowNat(Magnitude(n))| <= MaxStrDigits
    ensures ParseInt(ShowInt(n)) == Some(n)
  {
    var r := ShowInt(n);
    var m: nat := Magnitude(n);
    var digits := ShowNat(m);
    NumeralValueShowNat(m);
    DigitCountAllDigits(digits);
    assert r == if n < 0 then "-" + digits else digits;
    assert !Blank(r[0], true) && !Blank(r[|r| - 1], true) by {
      assert IsDigit(digits[|digits| - 1]);
      assert r[|r| - 1] == digits[|digits| - 1];
      assert r[0] == '-' || IsDigit(r[0]);
    }
    assert IntStrip(r) == r;
    if n < 0 {
      assert r[1..] == digits;
    } else {
      assert IsDigit(r[0]);
    }
  }
}
