/** The Python string builtins the core relies on: `str.isspace` (through
    `str.split()` and `str.strip()`), `str.split()` with no argument,
    `int()` of a string, and the text an f-string gives for a float with
    one decimal place. */
module Text {
  import opened Wrappers

  /** Python's `str.isspace()` for one character: the characters that
      `str.split()` and `str.strip()` treat as white space. */
  predicate IsSpace(c: char) {
    || ('\t' <= c <= '\r')
    || ('\U{1C}' <= c <= '\U{1F}')
    || c == ' '
    || c == '\U{85}'
    || c == '\U{A0}'
    || c == '\U{1680}'
    || ('\U{2000}' <= c <= '\U{200A}')
    || c == '\U{2028}'
    || c == '\U{2029}'
    || c == '\U{202F}'
    || c == '\U{205F}'
    || c == '\U{3000}'
  }

  predicate NoSpace(s: string) {
    forall i :: 0 <= i < |s| ==> !IsSpace(s[i])
  }

  /** `s.strip()` is empty. */
  predicate IsBlank(s: string) {
    forall i :: 0 <= i < |s| ==> IsSpace(s[i])
  }

  /** The characters of `s` that are not white space, in order. */
  function RemoveSpace(s: string): (t: string)
    ensures NoSpace(t)
    ensures |t| <= |s|
  {
    if s == [] then []
    else if IsSpace(s[0]) then RemoveSpace(s[1..])
    else [s[0]] + RemoveSpace(s[1..])
  }

  lemma {:induction false} RemoveSpaceOfBlank(s: string)
    ensures RemoveSpace(s) == [] <==> IsBlank(s)
  {
    if s != [] {
      RemoveSpaceOfBlank(s[1..]);
      if IsSpace(s[0]) {
        if IsBlank(s[1..]) {
          forall i | 0 <= i < |s| ensures IsSpace(s[i]) {
            if i > 0 { assert s[i] == s[1..][i - 1]; }
          }
        } else {
          var j :| 0 <= j < |s[1..]| && !IsSpace(s[1..][j]);
          assert !IsSpace(s[j + 1]);
        }
      }
    }
  }

  lemma {:induction false} RemoveSpaceAppend(a: string, b: string)
    ensures RemoveSpace(a + b) == RemoveSpace(a) + RemoveSpace(b)
  {
    if a != [] {
      assert (a + b)[1..] == a[1..] + b;
      RemoveSpaceAppend(a[1..], b);
    } else {
      assert a + b == b;
    }
  }

  lemma {:induction false} RemoveSpaceOfWord(a: string)
    requires NoSpace(a)
    ensures RemoveSpace(a) == a
  {
    if a != [] {
      assert NoSpace(a[1..]) by {
        forall i | 0 <= i < |a[1..]| ensures !IsSpace(a[1..][i]) {
          assert a[1..][i] == a[i + 1];
        }
      }
      RemoveSpaceOfWord(a[1..]);
      assert a == [a[0]] + a[1..];
    }
  }

  /** The words of a sequence of words laid end to end. */
  function Concat(words: seq<string>): string {
    if words == [] then [] else words[0] + Concat(words[1..])
  }

  /** Length of the longest prefix of `s` that holds no white space. */
  function WordLength(s: string): (n: nat)
    ensures n <= |s|
    ensures forall i :: 0 <= i < n ==> !IsSpace(s[i])
    ensures n < |s| ==> IsSpace(s[n])
  {
    if s == [] || IsSpace(s[0]) then 0 else 1 + WordLength(s[1..])
  }

  /** Python's `s.split()` with no argument: the maximal runs of
      non-white-space characters, in order; leading, trailing and repeated
      white space produce no empty word. */
  function Split(s: string): (words: seq<string>)
    decreases |s|
    ensures forall k :: 0 <= k < |words| ==> words[k] != [] && NoSpace(words[k])
    ensures Concat(words) == RemoveSpace(s)
    ensures forall k, i :: 0 <= k < |words| && 0 <= i < |words[k]| ==> words[k][i] in s
  {
    if s == [] then []
    else if IsSpace(s[0]) then Split(s[1..])
    else
      var n := WordLength(s);
      var rest := Split(s[n..]);
      assert s == s[..n] + s[n..];
      RemoveSpaceAppend(s[..n], s[n..]);
      RemoveSpaceOfWord(s[..n]);
      assert ([s[..n]] + rest)[1..] == rest;
      assert forall c :: c in s[n..] ==> c in s;
      assert forall c :: c in s[..n] ==> c in s;
      [s[..n]] + rest
  }

  /** A single word splits into itself. */
  lemma SplitOneWord(w: string)
    requires w != [] && NoSpace(w)
    ensures Split(w) == [w]
  {
    var n := WordLength(w);
    assert n == |w|;
    assert w[n..] == [] && w[..n] == w;
  }

  /** A word followed by white space splits off as the first word. */
  lemma SplitWordThenSpace(w: string, rest: string)
    requires w != [] && NoSpace(w)
    ensures Split(w + [' '] + rest) == [w] + Split(rest)
  {
    var s := w + [' '] + rest;
    var n := WordLength(s);
    assert s[|w|] == ' ';
    assert forall i :: 0 <= i < |w| ==> s[i] == w[i];
    assert n == |w|;
    assert s[..n] == w;
    assert s[n..][1..] == rest;
  }

  /** Blank text, then a word, then text that is empty or starts with
      white space: the word is the first thing `split()` returns. With
      `SplitEmptyIffBlank` this fixes `Split` on every string. */
  lemma {:induction false} SplitBlankThenWord(b: string, w: string, rest: string)
    requires IsBlank(b) && w != [] && NoSpace(w)
    requires rest == [] || IsSpace(rest[0])
    ensures Split(b + w + rest) == [w] + Split(rest)
    decreases |b|
  {
    var s := b + w + rest;
    if b == [] {
      assert s == w + rest;
      var n := WordLength(s);
      assert forall i :: 0 <= i < |w| ==> s[i] == w[i];
      assert |w| < |s| ==> s[|w|] == rest[0];
      assert n == |w|;
      assert s[..n] == w && s[n..] == rest;
    } else {
      assert s[0] == b[0];
      assert s[1..] == b[1..] + w + rest;
      assert IsBlank(b[1..]) by {
        forall i | 0 <= i < |b[1..]| ensures IsSpace(b[1..][i]) {
          assert b[1..][i] == b[i + 1];
        }
      }
      SplitBlankThenWord(b[1..], w, rest);
    }
  }

  /** Words separated by white space, laid end to end. */
  function Joined(words: seq<string>, seps: seq<string>): string
    requires |words| == |seps| + 1
    decreases |seps|
  {
    if seps == [] then words[0] else words[0] + seps[0] + Joined(words[1..], seps[1..])
  }

  /** `split()` returns exactly the words of a text built from non-empty
      words without white space, separated by non-empty white space, with
      any white space before and after. */
  lemma {:induction false} SplitJoined(pre: string, words: seq<string>, seps: seq<string>, post: string)
    requires |words| == |seps| + 1
    requires forall k :: 0 <= k < |words| ==> words[k] != [] && NoSpace(words[k])
    requires forall k :: 0 <= k < |seps| ==> seps[k] != [] && IsBlank(seps[k])
    requires IsBlank(pre) && IsBlank(post)
    ensures Split(pre + Joined(words, seps) + post) == words
    decreases |seps|
  {
    if seps == [] {
      assert pre + Joined(words, seps) + post == pre + words[0] + post;
      SplitBlankThenWord(pre, words[0], post);
      SplitEmptyIffBlank(post);
      assert words == [words[0]];
    } else {
      var tail := seps[0] + Joined(words[1..], seps[1..]) + post;
      assert pre + Joined(words, seps) + post == pre + words[0] + tail;
      assert tail[0] == seps[0][0];
      SplitBlankThenWord(pre, words[0], tail);
      SplitJoined(seps[0], words[1..], seps[1..], post);
      assert words == [words[0]] + words[1..];
    }
  }

  /** `s.split()` has no word exactly when `s` is blank. */
  lemma SplitEmptyIffBlank(s: string)
    ensures Split(s) == [] <==> IsBlank(s)
  {
    RemoveSpaceOfBlank(s);
    var words := Split(s);
    if words != [] {
      assert Concat(words) == words[0] + Concat(words[1..]);
      assert |Concat(words)| > 0;
    }
  }

  // ----- str.strip() and the stripping inside int() -----

  /** The white space `int()` ignores around a number: the ASCII
      characters space, `\t`, `\n`, `\v`, `\f` and `\r`, and every
      non-ASCII white-space character. The ASCII separators `\x1c` to
      `\x1f`, white space to `str.isspace()`, are not stripped by `int()`. */
  predicate IsIntSpace(c: char) {
    IsSpace(c) && !('\U{1C}' <= c <= '\U{1F}')
  }

  /** `s` with the leading characters removed that `space` holds of. */
  function TrimLeft(s: string, space: char -> bool): (t: string)
    ensures t == [] || !space(t[0])
    ensures |t| <= |s| && t == s[|s| - |t|..]
    ensures forall i :: 0 <= i < |s| - |t| ==> space(s[i])
  {
    if s == [] || !space(s[0]) then s
    else
      var t := TrimLeft(s[1..], space);
      assert forall i :: 1 <= i < |s| - |t| ==> s[i] == s[1..][i - 1];
      t
  }

  /** `s` with the trailing characters removed that `space` holds of. */
  function TrimRight(s: string, space: char -> bool): (t: string)
    ensures t == [] || !space(t[|t| - 1])
    ensures |t| <= |s| && t == s[..|t|]
    ensures forall i :: |t| <= i < |s| ==> space(s[i])
  {
    if s == [] || !space(s[|s| - 1]) then s
    else
      var t := TrimRight(s[..|s| - 1], space);
      assert s[..|s| - 1][..|t|] == s[..|t|];
      assert forall i :: |t| <= i < |s| - 1 ==> s[i] == s[..|s| - 1][i];
      t
  }

  /** Python's `s.strip()` with no argument. */
  function Strip(s: string): (t: string)
    ensures t == [] || (!IsSpace(t[0]) && !IsSpace(t[|t| - 1]))
    ensures exists i :: 0 <= i <= |s| - |t| && IsBlank(s[..i]) && t == s[i..][..|t|] && IsBlank(s[i..][|t|..])
  {
    StripSlice(s);
    TrimRight(TrimLeft(s, IsSpace), IsSpace)
  }

  /** Trimming both ends leaves a slice of `s`, with only white space
      before and after it. */
  lemma StripSlice(s: string)
    ensures var t := TrimRight(TrimLeft(s, IsSpace), IsSpace);
      exists i :: 0 <= i <= |s| - |t| && IsBlank(s[..i]) && t == s[i..][..|t|] && IsBlank(s[i..][|t|..])
  {
    var l := TrimLeft(s, IsSpace);
    var t := TrimRight(l, IsSpace);
    var i := |s| - |l|;
    assert s[i..] == l;
    assert forall j :: 0 <= j < i ==> s[..i][j] == s[j];
    assert IsBlank(s[..i]) && t == s[i..][..|t|] && IsBlank(s[i..][|t|..]);
  }

  /** `line.strip()` is empty exactly when every character is white space:
      the blank-line test of the loader. */
  lemma StripEmptyIffBlank(s: string)
    ensures Strip(s) == [] <==> IsBlank(s)
  {
    var l := TrimLeft(s, IsSpace);
    if l != [] {
      assert !IsSpace(l[0]) && l[0] == s[|s| - |l|];
      assert TrimRight(l, IsSpace) != [];
    }
  }

  /** The stripping `int()` applies to its argument. */
  function IntStrip(s: string): (t: string)
    ensures t == [] || (!IsIntSpace(t[0]) && !IsIntSpace(t[|t| - 1]))
  {
    TrimRight(TrimLeft(s, IsIntSpace), IsIntSpace)
  }

  // ----- decimal digits -----

  predicate IsDigit(c: char) { '0' <= c <= '9' }

  function DigitChar(d: nat): (c: char)
    requires d < 10
    ensures IsDigit(c)
  {
    "0123456789"[d]
  }

  function DigitValue(c: char): (d: nat)
    requires IsDigit(c)
    ensures d < 10 && DigitChar(d) == c
  {
    (c as int - '0' as int) as nat
  }

  predicate AllDigits(s: string) {
    forall i :: 0 <= i < |s| ==> IsDigit(s[i])
  }

  /** Python's `str(n)` for a natural number. */
  function NatToString(n: nat): (s: string)
    ensures s != [] && AllDigits(s)
  {
    if n < 10 then [DigitChar(n)] else NatToString(n / 10) + [DigitChar(n % 10)]
  }

  /** Python's `str(n)` for an integer. */
  function IntToString(n: int): string {
    if n < 0 then "-" + NatToString(-n) else NatToString(n)
  }

  /** The number a string of decimal digits denotes. */
  function DigitsValue(s: string): nat
    requires AllDigits(s)
  {
    if s == [] then 0 else DigitsValue(s[..|s| - 1]) * 10 + DigitValue(s[|s| - 1])
  }

  lemma {:induction false} DigitsOfNat(n: nat)
    ensures DigitsValue(NatToString(n)) == n
  {
    var s := NatToString(n);
    if n >= 10 {
      DigitsOfNat(n / 10);
      assert s[..|s| - 1] == NatToString(n / 10);
    }
  }

  /** One or more ASCII digits, optionally after a single sign. */
  predicate IsNumeral(t: string) {
    && t != []
    && (IsDigit(t[0]) || (|t| > 1 && (t[0] == '-' || t[0] == '+')))
    && forall i :: 1 <= i < |t| ==> IsDigit(t[i])
  }

  /** Python's `int(s)` for a string: the white space `IsIntSpace`
      names around the number is ignored, then an optional sign and one or
      more ASCII digits. Anything else is a `ValueError`, here `None`. */
  function ParseInt(s: string): (r: Option<int>)
    ensures r.Some? <==> IsNumeral(IntStrip(s))
  {
    ParseNumeral(IntStrip(s))
  }

  /** The number an already stripped argument of `int()` denotes. */
  function ParseNumeral(t: string): (r: Option<int>)
    ensures r.Some? <==> IsNumeral(t)
  {
    if t == [] then None
    else if t[0] == '-' || t[0] == '+' then
      var digits := t[1..];
      if digits != [] && AllDigits(digits) then
        assert forall i :: 1 <= i < |t| ==> t[i] == digits[i - 1];
        Some(if t[0] == '-' then -(DigitsValue(digits) as int) else DigitsValue(digits) as int)
      else None
    else if AllDigits(t) then Some(DigitsValue(t) as int)
    else None
  }

  lemma IntStripNoSpaceEnds(s: string)
    requires s == [] || (!IsIntSpace(s[0]) && !IsIntSpace(s[|s| - 1]))
    ensures IntStrip(s) == s
  {
  }

  /** `int(str(n)) == n`: every integer survives being written out and
      read back. */
  lemma ParseIntOfIntToString(n: int)
    ensures ParseInt(IntToString(n)) == Some(n)
  {
    var m: nat := if n < 0 then -n else n;
    var sign := if n < 0 then "-" else "";
    assert IntToString(n) == [] + sign + [] + NatToString(m) + [];
    ParseIntSigned([], sign, [], m, []);
  }

  /** `int()` ignores the white space it strips around a numeral: padding
      `str(n)` with it still reads back `n`. */
  lemma {:induction false} ParseIntPadded(pre: string, n: int, post: string)
    requires forall i :: 0 <= i < |pre| ==> IsIntSpace(pre[i])
    requires forall i :: 0 <= i < |post| ==> IsIntSpace(post[i])
    ensures ParseInt(pre + IntToString(n) + post) == Some(n)
  {
    var d := IntToString(n);
    IntToStringEnds(n);
    IntStripPadded(pre, d, post);
    ParseIntOfIntToString(n);
    IntStripNoSpaceEnds(d);
  }

  /** Leading zeros do not change the number a digit string denotes. */
  lemma {:induction false} DigitsLeadingZeros(zeros: string, d: string)
    requires forall i :: 0 <= i < |zeros| ==> zeros[i] == '0'
    requires AllDigits(d)
    ensures AllDigits(zeros + d) && DigitsValue(zeros + d) == DigitsValue(d)
    decreases |zeros| + |d|
  {
    if d == [] {
      assert zeros + d == zeros;
      if zeros != [] {
        var z := zeros[..|zeros| - 1];
        DigitsLeadingZeros(z, []);
        assert z + [] == z;
      }
    } else {
      var init := d[..|d| - 1];
      DigitsLeadingZeros(zeros, init);
      assert (zeros + d)[..|zeros + d| - 1] == zeros + init;
    }
  }

  /** A sign for `int()`: nothing, `+` or `-`. */
  predicate IsSign(sign: string) {
    |sign| <= 1 && (sign == [] || sign[0] == '-' || sign[0] == '+')
  }

  /** The value of `digits` under `sign`. */
  function Signed(sign: string, n: nat): int
    requires IsSign(sign)
  {
    if sign != [] && sign[0] == '-' then -(n as int) else n as int
  }

  /** `int()` accepts a sign, leading zeros and surrounding white space:
      `int(" +007 ") == 7`, `int("-02020") == -2020`. */
  lemma ParseIntSigned(pre: string, sign: string, zeros: string, n: nat, post: string)
    requires forall i :: 0 <= i < |pre| ==> IsIntSpace(pre[i])
    requires forall i :: 0 <= i < |post| ==> IsIntSpace(post[i])
    requires IsSign(sign)
    requires forall i :: 0 <= i < |zeros| ==> zeros[i] == '0'
    ensures ParseInt(pre + sign + zeros + NatToString(n) + post) == Some(Signed(sign, n))
  {
    var d := NatToString(n);
    var digits := zeros + d;
    DigitsLeadingZeros(zeros, d);
    DigitsOfNat(n);
    assert pre + sign + zeros + d + post == pre + sign + digits + post;
    IntStripSigned(pre, sign, digits, post);
    NumeralOfSigned(sign, digits);
  }

  lemma IntStripSigned(pre: string, sign: string, digits: string, post: string)
    requires forall i :: 0 <= i < |pre| ==> IsIntSpace(pre[i])
    requires forall i :: 0 <= i < |post| ==> IsIntSpace(post[i])
    requires IsSign(sign)
    requires digits != [] && AllDigits(digits)
    ensures IntStrip(pre + sign + digits + post) == sign + digits
  {
    var t := sign + digits;
    SignedEnds(sign, digits);
    assert pre + sign + digits + post == pre + t + post;
    IntStripPadded(pre, t, post);
  }

  lemma SignedEnds(sign: string, digits: string)
    requires IsSign(sign)
    requires digits != [] && AllDigits(digits)
    ensures var t := sign + digits; !IsIntSpace(t[0]) && !IsIntSpace(t[|t| - 1])
  {
    var t := sign + digits;
    assert t[|t| - 1] == digits[|digits| - 1];
    assert t[0] == (if sign == [] then digits[0] else sign[0]);
  }

  lemma NumeralOfSigned(sign: string, digits: string)
    requires IsSign(sign)
    requires digits != [] && AllDigits(digits)
    ensures ParseNumeral(sign + digits) == Some(Signed(sign, DigitsValue(digits)))
  {
    var t := sign + digits;
    if sign != [] {
      assert t[0] == sign[0];
      assert t[1..] == digits;
    } else {
      assert t == digits;
      assert t[0] != '-' && t[0] != '+';
    }
  }

  lemma IntToStringEnds(n: int)
    ensures var d := IntToString(n);
      d != [] && !IsIntSpace(d[0]) && !IsIntSpace(d[|d| - 1])
  {
    var m := NatToString(if n < 0 then -n else n);
    assert !IsDigit(m[|m| - 1]) ==> !AllDigits(m);
    if n < 0 {
      assert IntToString(n)[|IntToString(n)| - 1] == m[|m| - 1];
    } else {
      assert !IsDigit(m[0]) ==> !AllDigits(m);
    }
  }

  lemma IntStripPadded(pre: string, d: string, post: string)
    requires forall i :: 0 <= i < |pre| ==> IsIntSpace(pre[i])
    requires forall i :: 0 <= i < |post| ==> IsIntSpace(post[i])
    requires d != [] && !IsIntSpace(d[0]) && !IsIntSpace(d[|d| - 1])
    ensures IntStrip(pre + d + post) == d
  {
    assert pre + d + post == pre + (d + post);
    TrimLeftPadded(pre, d + post);
    TrimRightPadded(d, post);
  }

  lemma {:induction false} TrimLeftPadded(pre: string, rest: string)
    requires forall i :: 0 <= i < |pre| ==> IsIntSpace(pre[i])
    requires rest != [] && !IsIntSpace(rest[0])
    ensures TrimLeft(pre + rest, IsIntSpace) == rest
    decreases |pre|
  {
    if pre != [] {
      var s := pre + rest;
      assert s[0] == pre[0] && IsIntSpace(s[0]);
      assert s[1..] == pre[1..] + rest;
      TrimLeftPadded(pre[1..], rest);
      assert TrimLeft(s, IsIntSpace) == TrimLeft(s[1..], IsIntSpace);
    } else {
      assert pre + rest == rest;
    }
  }

  lemma {:induction false} TrimRightPadded(d: string, post: string)
    requires forall i :: 0 <= i < |post| ==> IsIntSpace(post[i])
    requires d != [] && !IsIntSpace(d[|d| - 1])
    ensures TrimRight(d + post, IsIntSpace) == d
    decreases |post|
  {
    if post != [] {
      var p := post[..|post| - 1];
      assert (d + post)[..|d + post| - 1] == d + p;
      TrimRightPadded(d, p);
    } else {
      assert d + post == d;
    }
  }

  /** The separator `\x1c` is white space to `str.isspace()` but not to
      `int()`: a numeral preceded by it does not convert. */
  lemma FileSeparatorNotStripped(n: int)
    ensures ParseInt(['\U{1C}'] + IntToString(n)) == None
  {
    var s := ['\U{1C}'] + IntToString(n);
    assert TrimLeft(s, IsIntSpace) == s;
    assert IntStrip(s)[0] == '\U{1C}';
  }

  // ----- float text -----

  /** Whole part, a dot and one decimal digit: for the boosts and cutoffs
      of the source (5, 10, 15, 20 and 30 tenths) this is the text Python
      prints for the float, `0.5`, `1.0`, `1.5`, `2.0` and `3.0`. (For very
      large values Python switches to exponent notation; no such value
      occurs here.) */
  function TenthsToString(tenths: nat): (s: string)
    ensures '^' !in s
  {
    NatToString(tenths / 10) + "." + [DigitChar(tenths % 10)]
  }

  /** Reads back a float written by `TenthsToString`. */
  function ParseTenths(s: string): (r: Option<nat>)
  {
    if |s| >= 3 && s[|s| - 2] == '.' && IsDigit(s[|s| - 1]) && AllDigits(s[..|s| - 2])
       && s[..|s| - 2] != []
    then Some(DigitsValue(s[..|s| - 2]) * 10 + DigitValue(s[|s| - 1]))
    else None
  }

  lemma TenthsRoundTrip(tenths: nat)
    ensures ParseTenths(TenthsToString(tenths)) == Some(tenths)
  {
    var s := TenthsToString(tenths);
    var w := NatToString(tenths / 10);
    assert s[..|s| - 2] == w;
    DigitsOfNat(tenths / 10);
  }
}
