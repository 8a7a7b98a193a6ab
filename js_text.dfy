/** The pieces of JavaScript's string semantics the model relies on: the
    characters matched by `\s` (and removed by `trim`), trimming, decimal
    rendering of numbers and `parseInt`. */
module JsText {
  import opened Wrappers

  /** WhiteSpace and LineTerminator code points of ECMAScript: exactly what
      the regular-expression class `\s` matches and what `String.prototype.trim`
      removes. */
  predicate IsSpace(c: char) {
    var n := c as int;
    n == 0x09 || n == 0x0A || n == 0x0B || n == 0x0C || n == 0x0D || n == 0x20
    || n == 0xA0 || n == 0x1680 || (0x2000 <= n <= 0x200A) || n == 0x2028
    || n == 0x2029 || n == 0x202F || n == 0x205F || n == 0x3000 || n == 0xFEFF
  }

  predicate AllSpace(s: string) {
    forall i :: 0 <= i < |s| ==> IsSpace(s[i])
  }

  predicate NoSpace(s: string) {
    forall i :: 0 <= i < |s| ==> !IsSpace(s[i])
  }

  predicate IsDigit(c: char) {
    '0' <= c <= '9'
  }

  predicate AllDigits(s: string) {
    forall i :: 0 <= i < |s| ==> IsDigit(s[i])
  }

  /** `trimStart`: drops the leading whitespace. */
  function TrimStart(s: string): (r: string)
    ensures |r| <= |s|
    ensures r == [] || !IsSpace(r[0])
  {
    if s != [] && IsSpace(s[0]) then TrimStart(s[1..]) else s
  }

  /** What `trimStart` drops is whitespace, and it keeps the rest as it is. */
  lemma {:induction false} TrimStartSplits(s: string)
    ensures var r := TrimStart(s); r == s[|s| - |r|..] && AllSpace(s[..|s| - |r|])
  {
    if s != [] && IsSpace(s[0]) {
      TrimStartSplits(s[1..]);
      var k := |s| - |TrimStart(s)|;
      assert s[1..][k - 1..] == s[k..];
      assert forall i :: 1 <= i < k ==> s[i] == s[1..][i - 1];
    }
  }

  /** `trimEnd`: drops the trailing whitespace. */
  function TrimEnd(s: string): (r: string)
    ensures |r| <= |s|
    ensures r == [] || !IsSpace(r[|r| - 1])
  {
    if s != [] && IsSpace(s[|s| - 1]) then TrimEnd(s[..|s| - 1]) else s
  }

  /** What `trimEnd` drops is whitespace, and it keeps the rest as it is. */
  lemma {:induction false} TrimEndSplits(s: string)
    ensures var r := TrimEnd(s); r == s[..|r|] && AllSpace(s[|r|..])
  {
    if s != [] && IsSpace(s[|s| - 1]) {
      var init := s[..|s| - 1];
      TrimEndSplits(init);
      var k := |TrimEnd(s)|;
      assert init[..k] == s[..k];
      assert forall i :: k <= i < |init| ==> s[i] == init[i];
    }
  }

  /** `String.prototype.trim`. */
  function Trim(s: string): (r: string)
    ensures |r| <= |s|
    ensures r == [] || (!IsSpace(r[0]) && !IsSpace(r[|r| - 1]))
    ensures r == [] <==> AllSpace(s)
  {
    var t := TrimStart(s);
    TrimStartSplits(s);
    TrimEndSplits(t);
    assert AllSpace(s) ==> t == [] by {
      if AllSpace(s) {
        TrimStartOfSpace(s);
      }
    }
    assert t == [] ==> s[..|s|] == s;
    TrimEnd(t)
  }

  lemma {:induction false} TrimStartOfSpace(s: string)
    requires AllSpace(s)
    ensures TrimStart(s) == []
  {
    if s != [] {
      assert forall i :: 0 <= i < |s| - 1 ==> s[1..][i] == s[i + 1];
      TrimStartOfSpace(s[1..]);
    }
  }

  lemma {:induction false} TrimStartOfSpaceFree(s: string)
    requires s == [] || !IsSpace(s[0])
    ensures TrimStart(s) == s
  {
  }

  /** A string with no whitespace at either end is its own trim. */
  lemma TrimOfTrimmed(s: string)
    requires s == [] || (!IsSpace(s[0]) && !IsSpace(s[|s| - 1]))
    ensures Trim(s) == s
  {
  }

  /** Leading whitespace is irrelevant to `trimStart`. */
  lemma {:induction false} TrimStartAfterSpace(p: string, t: string)
    requires AllSpace(p)
    ensures TrimStart(p + t) == TrimStart(t)
  {
    if p != [] {
      var pt := p + t;
      assert pt[0] == p[0] && IsSpace(pt[0]);
      assert pt[1..] == p[1..] + t;
      assert AllSpace(p[1..]);
      TrimStartAfterSpace(p[1..], t);
    } else {
      assert p + t == t;
    }
  }

  /** Appending after a string that has some non-space character does not
      change what `trimStart` removes. */
  lemma {:induction false} TrimStartAppend(t: string, q: string)
    requires !AllSpace(t)
    ensures TrimStart(t + q) == TrimStart(t) + q
  {
    if IsSpace(t[0]) {
      assert (t + q)[1..] == t[1..] + q;
      TrimStartAppend(t[1..], q);
    } else {
      assert (t + q)[0] == t[0];
    }
  }

  /** Trailing whitespace is irrelevant to `trimEnd`. */
  lemma {:induction false} TrimEndBeforeSpace(t: string, q: string)
    requires AllSpace(q)
    ensures TrimEnd(t + q) == TrimEnd(t)
  {
    if q != [] {
      var tq := t + q;
      assert tq[|tq| - 1] == q[|q| - 1] && IsSpace(tq[|tq| - 1]);
      assert tq[..|tq| - 1] == t + q[..|q| - 1];
      assert AllSpace(q[..|q| - 1]);
      TrimEndBeforeSpace(t, q[..|q| - 1]);
    } else {
      assert t + q == t;
    }
  }

  /** Whitespace added at either end never survives `trim`. */
  lemma TrimPadded(p: string, t: string, q: string)
    requires AllSpace(p) && AllSpace(q)
    ensures Trim(p + t + q) == Trim(t)
  {
    assert p + t + q == p + (t + q);
    TrimStartAfterSpace(p, t + q);
    if AllSpace(t) {
      assert AllSpace(t + q);
      TrimStartOfSpace(t + q);
      TrimStartOfSpace(t);
    } else {
      TrimStartAppend(t, q);
      TrimEndBeforeSpace(TrimStart(t), q);
    }
  }

  function DigitChar(d: nat): (c: char)
    requires d < 10
    ensures IsDigit(c)
  {
    ('0' as int + d) as char
  }

  function DigitValue(c: char): (d: nat)
    requires IsDigit(c)
    ensures d < 10 && DigitChar(d) == c
  {
    c as int - '0' as int
  }

  /** The value of a string of decimal digits. */
  function DigitsValue(s: string): nat
    requires AllDigits(s)
  {
    if s == [] then 0 else DigitsValue(s[..|s| - 1]) * 10 + DigitValue(s[|s| - 1])
  }

  /** JavaScript's rendering of a non-negative integer, as in a template
      literal: shortest decimal digits, no sign. */
  function NatToString(n: nat): (r: string)
    ensures r != [] && AllDigits(r)
    ensures |r| > 1 ==> r[0] != '0'
  {
    if n < 10 then [DigitChar(n)] else NatToString(n / 10) + [DigitChar(n % 10)]
  }

  /** The digits of a number read back give the number. */
  lemma {:induction false} NatToStringValue(n: nat)
    ensures DigitsValue(NatToString(n)) == n
  {
    if n >= 10 {
      var s := NatToString(n);
      assert s[..|s| - 1] == NatToString(n / 10);
      NatToStringValue(n / 10);
    }
  }

  /** JavaScript's rendering of an integer. */
  function IntToString(i: int): (r: string)
    ensures r != []
    ensures i < 0 <==> r[0] == '-'
  {
    if i < 0 then "-" + NatToString(-i) else NatToString(i)
  }

  /** The longest prefix of `s` made of decimal digits. */
  function DigitPrefix(s: string): (r: string)
    ensures AllDigits(r) && |r| <= |s|
  {
    if s != [] && IsDigit(s[0]) then [s[0]] + DigitPrefix(s[1..]) else []
  }

  /** The run is a prefix of `s` that stops before the first non-digit. */
  lemma {:induction false} DigitPrefixSplits(s: string)
    ensures var r := DigitPrefix(s); r == s[..|r|] && (|r| < |s| ==> !IsDigit(s[|r|]))
  {
    if s != [] && IsDigit(s[0]) {
      DigitPrefixSplits(s[1..]);
      var r := DigitPrefix(s[1..]);
      assert s[..|r| + 1] == [s[0]] + s[1..][..|r|];
    }
  }

  /** `parseInt(s)` with no radix, for decimal input: leading whitespace is
      skipped, one optional sign is read, then the longest run of digits;
      `None` stands for NaN (no digit after the sign). */
  function ParseInt(s: string): (r: Option<int>)
    ensures r.Some? ==> exists i :: 0 <= i < |s| && IsDigit(s[i])
  {
    var t := TrimStart(s);
    TrimStartSplits(s);
    var negative := t != [] && t[0] == '-';
    var body := if t != [] && (t[0] == '-' || t[0] == '+') then t[1..] else t;
    var digits := DigitPrefix(body);
    if digits == [] then None
    else
      assert IsDigit(body[0]);
      assert body[0] == s[|s| - |body|];
      var v: int := DigitsValue(digits);
      Some(if negative then -v else v)
  }

  lemma {:induction false} DigitPrefixOfDigits(s: string)
    requires AllDigits(s)
    ensures DigitPrefix(s) == s
  {
    if s != [] {
      DigitPrefixOfDigits(s[1..]);
    }
  }

  /** `parseInt` reads back any integer JavaScript renders. */
  lemma ParseIntOfIntToString(i: int)
    ensures ParseInt(IntToString(i)) == Some(i)
  {
    var s := IntToString(i);
    TrimStartOfSpaceFree(s);
    var digits := if i < 0 then NatToString(-i) else NatToString(i);
    if i < 0 {
      assert s[1..] == digits;
    }
    DigitPrefixOfDigits(digits);
    NatToStringValue(if i < 0 then -i else i);
  }

  /** `stored || fallback` for an optional text: an empty one falls back too. */
  function TextOr(stored: Option<string>, fallback: string): (r: string)
    ensures stored.Some? && stored.value != "" ==> r == stored.value
    ensures stored.None? || stored.value == "" ==> r == fallback
  {
    if stored.Some? && stored.value != "" then stored.value else fallback
  }

  /** The text of `s` before the first `stop`. */
  function UpTo(s: string, stop: char): (r: string)
    ensures |r| <= |s|
  {
    if s == [] || s[0] == stop then [] else [s[0]] + UpTo(s[1..], stop)
  }

  /** The text is a prefix of `s` without `stop`, followed by `stop` unless
      it is all of `s`. */
  lemma {:induction false} UpToSplits(s: string, stop: char)
    ensures var r := UpTo(s, stop); r <= s && stop !in r && (r == s || s[|r|] == stop)
  {
    if s != [] && s[0] != stop {
      UpToSplits(s[1..], stop);
      assert UpTo(s, stop) == [s[0]] + UpTo(s[1..], stop);
    }
  }

  /** A stop character not in `x` and beginning `y` ends the text at `x`. */
  lemma {:induction false} UpToAppend(x: string, stop: char, y: string)
    requires stop !in x && y != [] && y[0] == stop
    ensures UpTo(x + y, stop) == x
  {
    if x != [] {
      assert (x + y)[1..] == x[1..] + y;
      UpToAppend(x[1..], stop, y);
    }
  }

  lemma {:induction false} DigitPrefixAppend(d: string, rest: string)
    requires AllDigits(d) && (rest == [] || !IsDigit(rest[0]))
    ensures DigitPrefix(d + rest) == d
  {
    if d != [] {
      assert (d + rest)[1..] == d[1..] + rest;
      DigitPrefixAppend(d[1..], rest);
    }
  }

  /** `parseInt` reads a rendered integer back from the front of a text and
      stops at the first character that is not a digit. */
  lemma ParseIntPrefix(i: int, rest: string)
    requires rest == [] || !IsDigit(rest[0])
    ensures ParseInt(IntToString(i) + rest) == Some(i)
  {
    if i < 0 {
      var n: nat := -i;
      assert IntToString(i) + rest == "-" + (NatToString(n) + rest);
      ParseIntNegativeDigits(n, rest);
    } else {
      ParseIntDigits(i, rest);
    }
  }

  lemma ParseIntDigits(n: nat, rest: string)
    requires rest == [] || !IsDigit(rest[0])
    ensures ParseInt(NatToString(n) + rest) == Some(n)
  {
    var d := NatToString(n);
    var s := d + rest;
    assert s[0] == d[0];
    TrimStartOfSpaceFree(s);
    DigitPrefixAppend(d, rest);
    NatToStringValue(n);
  }

  lemma ParseIntNegativeDigits(n: nat, rest: string)
    requires rest == [] || !IsDigit(rest[0])
    ensures ParseInt("-" + (NatToString(n) + rest)) == Some(-(n as int))
  {
    var d := NatToString(n);
    var s := "-" + (d + rest);
    TrimStartOfSpaceFree(s);
    assert s[1..] == d + rest;
    DigitPrefixAppend(d, rest);
    NatToStringValue(n);
  }
}
