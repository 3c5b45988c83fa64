/** The parts of Python's `str` behaviour the pipeline relies on:
    `str.isspace`, `str.strip`, `str.split(sep)`, `sep.join(...)`, `c in s`,
    `sub in s` and `int(s)` on decimal text. */
module Text {
  import opened Wrappers

  /** The characters for which Python's `str.isspace()` holds. */
  predicate IsSpace(c: char) {
    || c == ' '
    || ('\t' <= c <= '\r')
    || ('\U{1c}' <= c <= '\U{1f}')
    || c == '\U{85}' || c == '\U{a0}' || c == '\U{1680}'
    || ('\U{2000}' <= c <= '\U{200a}')
    || c == '\U{2028}' || c == '\U{2029}' || c == '\U{202f}'
    || c == '\U{205f}' || c == '\U{3000}'
  }

  predicate AllSpace(s: string) {
    forall k :: 0 <= k < |s| ==> IsSpace(s[k])
  }

  /** Neither end of `s` is whitespace: what `str.strip()` leaves. */
  predicate IsStripped(s: string) {
    s == [] || (!IsSpace(s[0]) && !IsSpace(s[|s| - 1]))
  }

  function TrimLeft(s: string): (r: string)
    ensures |r| <= |s|
    ensures r == [] || !IsSpace(r[0])
  {
    if s != [] && IsSpace(s[0]) then TrimLeft(s[1..]) else s
  }

  /** `TrimLeft` drops a whitespace prefix and keeps the rest. */
  lemma {:induction false} TrimLeftSuffix(s: string)
    ensures TrimLeft(s) == s[|s| - |TrimLeft(s)|..]
    ensures AllSpace(s[..|s| - |TrimLeft(s)|])
  {
    if s != [] && IsSpace(s[0]) {
      TrimLeftSuffix(s[1..]);
      var n := |s| - |TrimLeft(s)|;
      assert s[1..][n - 1..] == s[n..];
      assert forall k :: 1 <= k < n ==> s[k] == s[1..][..n - 1][k - 1];
    }
  }

  function TrimRight(s: string): (r: string)
    ensures |r| <= |s| && r == s[..|r|]
    ensures AllSpace(s[|r|..])
    ensures r == [] || !IsSpace(r[|r| - 1])
  {
    if s != [] && IsSpace(s[|s| - 1]) then
      var r := TrimRight(s[..|s| - 1]);
      assert s[|r|..] == s[..|s| - 1][|r|..] + [s[|s| - 1]];
      r
    else s
  }

  /** `r` is what is left of `s` after dropping `i` whitespace characters in
      front and only whitespace behind. */
  ghost predicate TrimsTo(s: string, i: int, r: string) {
    && 0 <= i <= |s| - |r|
    && r == s[i..i + |r|]
    && AllSpace(s[..i])
    && AllSpace(s[i + |r|..])
  }

  /** Python's `s.strip()`: `s` with its leading and trailing whitespace removed. */
  function Strip(s: string): (r: string)
    ensures IsStripped(r)
  {
    var l := TrimLeft(s);
    var r := TrimRight(l);
    assert r == [] || !IsSpace(r[0]) by {
      if r != [] { assert r[0] == l[0]; }
    }
    r
  }

  /** What `Strip` keeps is a stretch of the text with only whitespace around it. */
  lemma StripTrims(s: string)
    ensures exists i :: TrimsTo(s, i, Strip(s))
  {
    TrimLeftSuffix(s);
    var l := TrimLeft(s);
    var r := TrimRight(l);
    var i := |s| - |l|;
    assert Strip(s) == r;
    assert r == s[i..i + |r|];
    assert s[i + |r|..] == l[|r|..];
    assert TrimsTo(s, i, r);
  }

  /** `Strip` only removes characters: whatever it keeps was in the text. */
  lemma StripChars(s: string, c: char)
    requires c in Strip(s)
    ensures c in s
  {
    var r := Strip(s);
    StripTrims(s);
    var i :| TrimsTo(s, i, r);
    var k :| 0 <= k < |r| && r[k] == c;
    assert s[i + k] == c;
  }

  /** `Strip` is the only way to split `a + r + b` into whitespace, a stripped
      middle and whitespace: it returns exactly the middle. */
  lemma {:induction false} StripUnique(a: string, r: string, b: string)
    requires AllSpace(a) && AllSpace(b) && IsStripped(r)
    ensures Strip(a + r + b) == r
  {
    assert a + r + b == a + (r + b);
    if r == [] {
      assert a + r + b == a + b;
      assert AllSpace(a + b);
      TrimLeftAllSpace(a + b);
    } else {
      TrimLeftSpaces(a, r + b);
      TrimRightSpaces(r, b);
    }
  }

  lemma {:induction false} TrimLeftAllSpace(s: string)
    requires AllSpace(s)
    ensures TrimLeft(s) == []
  {
    if s != [] {
      TrimLeftAllSpace(s[1..]);
    }
  }

  lemma {:induction false} TrimLeftSpaces(a: string, t: string)
    requires AllSpace(a) && (t == [] || !IsSpace(t[0]))
    ensures TrimLeft(a + t) == t
  {
    if a != [] {
      assert (a + t)[1..] == a[1..] + t;
      TrimLeftSpaces(a[1..], t);
    }
  }

  lemma {:induction false} TrimRightSpaces(t: string, b: string)
    requires AllSpace(b) && (t == [] || !IsSpace(t[|t| - 1]))
    ensures TrimRight(t + b) == t
  {
    if b != [] {
      assert (t + b)[..|t + b| - 1] == t + b[..|b| - 1];
      TrimRightSpaces(t, b[..|b| - 1]);
    } else {
      assert t + b == t;
    }
  }

  /** `Strip` leaves nothing exactly when the text is all whitespace. */
  lemma StripEmptyIff(s: string)
    ensures Strip(s) == [] <==> AllSpace(s)
  {
    StripTrims(s);
    if AllSpace(s) {
      StripUnique(s, [], []);
      assert s + [] + [] == s;
    }
  }

  /** Stripping twice is stripping once. */
  lemma StripIdempotent(s: string)
    ensures Strip(Strip(s)) == Strip(s)
  {
    StripUnique([], Strip(s), []);
    assert [] + Strip(s) + [] == Strip(s);
  }

  /** Python's `s.split(sep)` for a one-character separator: the maximal pieces
      between separators, including empty ones (`"".split(",") == [""]`). */
  function Split(s: string, sep: char): (pieces: seq<string>)
    ensures |pieces| >= 1
    ensures forall k :: 0 <= k < |pieces| ==> sep !in pieces[k]
  {
    if s == [] then [[]]
    else
      var rest := Split(s[1..], sep);
      if s[0] == sep then [[]] + rest
      else [[s[0]] + rest[0]] + rest[1..]
  }

  /** Python's `sep.join(pieces)`. */
  function Join(pieces: seq<string>, sep: string): string {
    if |pieces| == 0 then []
    else if |pieces| == 1 then pieces[0]
    else pieces[0] + sep + Join(pieces[1..], sep)
  }

  /** Joining the pieces with the separator gives back the text. */
  lemma {:induction false} JoinSplit(s: string, sep: char)
    ensures Join(Split(s, sep), [sep]) == s
  {
    if s != [] {
      var rest := Split(s[1..], sep);
      JoinSplit(s[1..], sep);
      if s[0] == sep {
        assert Split(s, sep) == [[]] + rest;
        assert ([[]] + rest)[1..] == rest;
        assert Join(Split(s, sep), [sep]) == [] + [sep] + Join(rest, [sep]);
        assert s == [s[0]] + s[1..];
      } else {
        JoinCons(s[0], rest, [sep]);
        assert s == [s[0]] + s[1..];
      }
    }
  }

  lemma {:induction false} JoinCons(c: char, pieces: seq<string>, sep: string)
    requires |pieces| >= 1
    ensures Join([[c] + pieces[0]] + pieces[1..], sep) == [c] + Join(pieces, sep)
  {
    var ps := [[c] + pieces[0]] + pieces[1..];
    if |pieces| == 1 {
      assert ps == [[c] + pieces[0]];
    } else {
      assert ps[1..] == pieces[1..];
    }
  }

  /** Splitting a join of separator-free pieces gives back the pieces. */
  lemma {:induction false} SplitJoin(pieces: seq<string>, sep: char)
    requires |pieces| >= 1
    requires forall k :: 0 <= k < |pieces| ==> sep !in pieces[k]
    ensures Split(Join(pieces, [sep]), sep) == pieces
  {
    if |pieces| == 1 {
      SplitNoSep(pieces[0], sep);
    } else {
      SplitJoin(pieces[1..], sep);
      SplitAppend(pieces[0], Join(pieces[1..], [sep]), sep);
      SplitNoSep(pieces[0], sep);
      assert pieces == [pieces[0]] + pieces[1..];
    }
  }

  lemma {:induction false} SplitNoSep(s: string, sep: char)
    requires sep !in s
    ensures Split(s, sep) == [s]
  {
    if s != [] {
      SplitNoSep(s[1..], sep);
      assert s == [s[0]] + s[1..];
    }
  }

  /** A separator cuts the split in two: `Split(a + sep + b) == Split(a) + Split(b)`. */
  lemma {:induction false} SplitAppend(a: string, b: string, sep: char)
    ensures Split(a + [sep] + b, sep) == Split(a, sep) + Split(b, sep)
  {
    var s := a + [sep] + b;
    if a == [] {
      assert s[1..] == b;
    } else {
      assert s[0] == a[0];
      assert s[1..] == a[1..] + [sep] + b;
      SplitAppend(a[1..], b, sep);
    }
  }

  /** Python's `sub in s` for strings. */
  predicate ContainsSubstring(s: string, sub: string)
    decreases |s|
  {
    (|sub| <= |s| && s[..|sub|] == sub) || (s != [] && ContainsSubstring(s[1..], sub))
  }

  predicate IsDigit(c: char) {
    '0' <= c <= '9'
  }

  predicate AllDigits(s: string) {
    forall k :: 0 <= k < |s| ==> IsDigit(s[k])
  }

  function DigitValue(c: char): nat
    requires IsDigit(c)
  {
    (c as int) - ('0' as int)
  }

  function DigitChar(d: nat): char
    requires d < 10
  {
    (('0' as int) + d) as char
  }

  /** The number the decimal digits of `s` denote. */
  function DigitsValue(s: string): nat
    requires AllDigits(s)
  {
    if s == [] then 0 else DigitsValue(s[..|s| - 1]) * 10 + DigitValue(s[|s| - 1])
  }

  function Pow10(n: nat): (r: nat)
    ensures r >= 1
  {
    if n == 0 then 1 else 10 * Pow10(n - 1)
  }

  /** `n` written with exactly `width` decimal digits, zero-padded on the left
      (Python's `f"{n:0{width}d}"` when `n < 10^width`). */
  function PadDigits(n: nat, width: nat): (s: string)
    ensures |s| == width && AllDigits(s)
  {
    if width == 0 then [] else PadDigits(n / 10, width - 1) + [DigitChar(n % 10)]
  }

  /** Reading back a padded number gives the number. */
  lemma {:induction false} DigitsValuePad(n: nat, width: nat)
    requires n < Pow10(width)
    ensures DigitsValue(PadDigits(n, width)) == n
  {
    if width > 0 {
      var s := PadDigits(n, width);
      assert s[..|s| - 1] == PadDigits(n / 10, width - 1);
      DigitsValuePad(n / 10, width - 1);
    }
  }

  /** Padding the value of a digit string to its own width gives the string back. */
  lemma {:induction false} PadDigitsValue(s: string)
    requires AllDigits(s)
    ensures PadDigits(DigitsValue(s), |s|) == s
  {
    if s != [] {
      var init := s[..|s| - 1];
      var d := DigitValue(s[|s| - 1]);
      PadDigitsValue(init);
      assert (DigitsValue(init) * 10 + d) / 10 == DigitsValue(init);
      assert (DigitsValue(init) * 10 + d) % 10 == d;
      assert s == init + [s[|s| - 1]];
    }
  }

  /** The texts `int()` reads once stripped: one or more ASCII digits, or a
      sign followed by one or more ASCII digits. */
  predicate IntText(t: string) {
    || (t != [] && AllDigits(t))
    || (|t| > 1 && (t[0] == '-' || t[0] == '+') && AllDigits(t[1..]))
  }

  /** `int()` on text with no surrounding whitespace: an optional sign and one
      or more ASCII digits. */
  function ParseSigned(t: string): (r: Option<int>)
    ensures r.Some? <==> IntText(t)
  {
    if t == [] then None
    else if t[0] == '-' || t[0] == '+' then
      var digits := t[1..];
      if digits != [] && AllDigits(digits) then
        var v: int := DigitsValue(digits);
        Some(if t[0] == '-' then -v else v)
      else None
    else if AllDigits(t) then Some(DigitsValue(t))
    else None
  }

  /** The information separators U+001C..U+001F: `str.isspace` holds for them,
      but `int()` does not skip them around a number. */
  predicate IsInfoSeparator(c: char) {
    '\U{1c}' <= c <= '\U{1f}'
  }

  /** The whitespace `int()` skips around a number. */
  predicate IsIntSpace(c: char) {
    IsSpace(c) && !IsInfoSeparator(c)
  }

  predicate AllIntSpace(s: string) {
    forall k :: 0 <= k < |s| ==> IsIntSpace(s[k])
  }

  predicate NoInfoSeparator(s: string) {
    forall k :: 0 <= k < |s| ==> !IsInfoSeparator(s[k])
  }

  /** The texts `int()` reads: the number framed by `int()`'s whitespace. Since
      no character of a number is whitespace, that is the text `str.strip`
      leaves, provided no information separator surrounds it. */
  predicate IntReadable(s: string) {
    IntText(Strip(s)) && NoInfoSeparator(s)
  }

  /** Python's `int(s)` on text: surrounding whitespace, an optional sign and one
      or more ASCII digits; `None` where Python raises `ValueError`. */
  function ParseInt(s: string): (r: Option<int>)
    ensures r.Some? <==> IntReadable(s)
  {
    if NoInfoSeparator(s) then ParseSigned(Strip(s)) else None
  }

  /** `int()`'s whitespace around a number is whitespace for `str.strip` too,
      and brings no information separator with it. */
  lemma IntPadding(a: string, t: string, b: string)
    requires AllIntSpace(a) && AllIntSpace(b) && NoInfoSeparator(t)
    ensures AllSpace(a) && AllSpace(b) && NoInfoSeparator(a + t + b)
  {
    var s := a + t + b;
    forall k | 0 <= k < |s|
      ensures !IsInfoSeparator(s[k])
    {
      if k < |a| {
        assert s[k] == a[k];
      } else if k < |a| + |t| {
        assert s[k] == t[k - |a|];
      } else {
        assert s[k] == b[k - |a| - |t|];
      }
    }
  }

  /** An information separator anywhere in the text makes `int()` raise, even
      around digits that would otherwise be read. */
  lemma ParseIntInfoSeparator(d: string, c: char)
    requires d != [] && AllDigits(d) && IsInfoSeparator(c)
    ensures IntText(Strip([c] + d))
    ensures ParseInt([c] + d) == None
  {
    assert IsDigit(d[0]) && IsDigit(d[|d| - 1]);
    assert AllSpace([c]) && AllSpace([]);
    StripUnique([c], d, []);
    assert [c] + d + [] == [c] + d;
    assert ([c] + d)[0] == c;
  }

  /** Digits with `int()`'s whitespace around them read as their value. */
  lemma ParseIntDigits(a: string, d: string, b: string)
    requires AllIntSpace(a) && AllIntSpace(b)
    requires d != [] && AllDigits(d)
    ensures ParseInt(a + d + b) == Some(DigitsValue(d) as int)
  {
    assert IsDigit(d[0]) && IsDigit(d[|d| - 1]);
    IntPadding(a, d, b);
    StripUnique(a, d, b);
  }

  /** A `-` followed by digits reads as the negated value. */
  lemma ParseSignedNegative(d: string)
    requires d != [] && AllDigits(d)
    ensures ParseSigned(['-'] + d) == Some(-(DigitsValue(d) as int))
  {
    assert (['-'] + d)[1..] == d;
  }

  /** A `+` followed by digits reads as the value of the digits. */
  lemma ParseSignedPositive(d: string)
    requires d != [] && AllDigits(d)
    ensures ParseSigned(['+'] + d) == Some(DigitsValue(d) as int)
  {
    assert (['+'] + d)[1..] == d;
  }

  /** Digits after a `+`, with whitespace around them, read as their value. */
  lemma ParseIntPositiveDigits(a: string, d: string, b: string)
    requires AllIntSpace(a) && AllIntSpace(b)
    requires d != [] && AllDigits(d)
    ensures ParseInt(a + "+" + d + b) == Some(DigitsValue(d) as int)
  {
    var pos := ['+'] + d;
    assert IsDigit(d[|d| - 1]);
    assert pos[|pos| - 1] == d[|d| - 1];
    assert forall k :: 1 <= k < |pos| ==> pos[k] == d[k - 1];
    IntPadding(a, pos, b);
    StripUnique(a, pos, b);
    assert a + "+" + d + b == a + pos + b;
    ParseSignedPositive(d);
  }

  /** Digits after a `-`, with whitespace around them, read as the negated value. */
  lemma ParseIntNegativeDigits(a: string, d: string, b: string)
    requires AllIntSpace(a) && AllIntSpace(b)
    requires d != [] && AllDigits(d)
    ensures ParseInt(a + "-" + d + b) == Some(-(DigitsValue(d) as int))
  {
    var neg := ['-'] + d;
    assert IsDigit(d[|d| - 1]);
    assert neg[|neg| - 1] == d[|d| - 1];
    assert forall k :: 1 <= k < |neg| ==> neg[k] == d[k - 1];
    IntPadding(a, neg, b);
    StripUnique(a, neg, b);
    assert a + "-" + d + b == a + neg + b;
    ParseSignedNegative(d);
  }
}
