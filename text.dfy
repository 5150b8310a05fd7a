/** The pieces of Python's string handling the dialog relies on: `str.strip()`,
    `str.split(":")` and `int(...)` on a string, for base 10. */
module Text {
  import opened Wrappers

  /** Python's `str.isspace()` on one code point: what `strip()` and `split()`
      treat as whitespace. */
  predicate IsSpace(c: char) {
    var n := c as int;
    (0x09 <= n <= 0x0D) || (0x1C <= n <= 0x20) || n == 0x85 || n == 0xA0 || n == 0x1680
    || (0x2000 <= n <= 0x200A) || n == 0x2028 || n == 0x2029 || n == 0x202F
    || n == 0x205F || n == 0x3000
  }

  /** What `int()` skips around its digits. It passes ASCII characters through
      unchanged, turns every other `isspace()` character into a space and then
      skips only the ASCII whitespace `\t \n \v \f \r` and space, so to it the
      separators U+001C..U+001F are not whitespace. */
  predicate IsIntSpace(c: char) {
    IsSpace(c) && !(0x1C <= c as int <= 0x1F)
  }

  predicate AllBlank(blank: char -> bool, s: string) {
    forall i :: 0 <= i < |s| ==> blank(s[i])
  }

  /** `s.lstrip()`: the suffix of `s` left after dropping its leading whitespace. */
  function TrimStart(blank: char -> bool, s: string): (r: string)
    ensures |r| <= |s| && r == s[|s| - |r|..]
    ensures forall i :: 0 <= i < |s| - |r| ==> blank(s[i])
    ensures r == [] || !blank(r[0])
  {
    if s != [] && blank(s[0]) then
      var r := TrimStart(blank, s[1..]);
      assert forall i :: 1 <= i < |s| ==> s[1..][i - 1] == s[i];
      r
    else s
  }

  /** `s.rstrip()`: the prefix of `s` left after dropping its trailing whitespace. */
  function TrimEnd(blank: char -> bool, s: string): (r: string)
    ensures |r| <= |s| && r == s[..|r|]
    ensures forall i :: |r| <= i < |s| ==> blank(s[i])
    ensures r == [] || !blank(r[|r| - 1])
  {
    if s != [] && blank(s[|s| - 1]) then
      var r := TrimEnd(blank, s[..|s| - 1]);
      assert forall i :: 0 <= i < |s| - 1 ==> s[..|s| - 1][i] == s[i];
      r
    else s
  }

  /** Whitespace dropped from both ends: the leading whitespace one character
      at a time, then the trailing whitespace. */
  function StripBy(blank: char -> bool, s: string): (r: string)
    ensures |r| <= |s|
  {
    if s != [] && blank(s[0]) then StripBy(blank, s[1..]) else TrimEnd(blank, s)
  }

  /** `s.strip()` with no argument. */
  function Strip(s: string): (r: string)
    ensures |r| <= |s|
  {
    StripBy(IsSpace, s)
  }

  /** Stripping is `rstrip()` after `lstrip()`. */
  lemma {:induction false} StripByTrims(blank: char -> bool, s: string)
    ensures StripBy(blank, s) == TrimEnd(blank, TrimStart(blank, s))
  {
    if s != [] && blank(s[0]) {
      StripByTrims(blank, s[1..]);
    }
  }

  /** What a strip keeps starts and ends with a non-space, and it keeps
      nothing exactly when the input is all whitespace. */
  lemma StripShape(blank: char -> bool, s: string)
    ensures var r := StripBy(blank, s);
      && (r == [] || (!blank(r[0]) && !blank(r[|r| - 1])))
      && (r == [] <==> AllBlank(blank, s))
  {
    StripByTrims(blank, s);
    var t := TrimStart(blank, s);
    var r := TrimEnd(blank, t);
    var k := |s| - |t|;
    assert r != [] ==> r[0] == t[0];
    assert t != [] ==> t[0] == s[k];
    assert t != [] ==> blank(t[0]) || r != [];
  }

  /** Whatever a strip keeps is a contiguous piece of the input, starting
      where the leading whitespace ends. */
  lemma StripIsInfix(blank: char -> bool, s: string)
    ensures var k := |s| - |TrimStart(blank, s)|; var r := StripBy(blank, s);
      k + |r| <= |s| && r == s[k..k + |r|]
  {
    var t := TrimStart(blank, s);
    var r := StripBy(blank, s);
    StripByTrims(blank, s);
    assert r == TrimEnd(blank, t);
    TrimsAreInfix(blank, s, t, r);
  }

  /** Around that piece there is only whitespace. */
  lemma StripDropsOnlyBlanks(blank: char -> bool, s: string)
    ensures var k := |s| - |TrimStart(blank, s)|; var r := StripBy(blank, s);
      && (forall i :: 0 <= i < k ==> blank(s[i]))
      && (forall i :: k + |r| <= i < |s| ==> blank(s[i]))
  {
    var t := TrimStart(blank, s);
    var r := StripBy(blank, s);
    StripByTrims(blank, s);
    assert r == TrimEnd(blank, t);
    TrimsAreInfix(blank, s, t, r);
  }

  /** The index arithmetic behind `StripIsInfix`, from the shapes of the two
      trims alone. */
  lemma TrimsAreInfix(blank: char -> bool, s: string, t: string, r: string)
    requires |t| <= |s| && t == s[|s| - |t|..]
    requires forall i :: 0 <= i < |s| - |t| ==> blank(s[i])
    requires |r| <= |t| && r == t[..|r|]
    requires forall i :: |r| <= i < |t| ==> blank(t[i])
    ensures var k := |s| - |t|;
      && k + |r| <= |s|
      && r == s[k..k + |r|]
      && (forall i :: k + |r| <= i < |s| ==> blank(s[i]))
  {
    var k := |s| - |t|;
    assert r == s[k..][..|r|];
    assert forall i :: k + |r| <= i < |s| ==> s[i] == t[i - k];
  }

  lemma {:induction false} TrimEndPadded(blank: char -> bool, t: string, w: string)
    requires AllBlank(blank, w)
    requires t == [] || !blank(t[|t| - 1])
    ensures TrimEnd(blank, t + w) == t
  {
    if w != [] {
      assert (t + w)[..|t + w| - 1] == t + w[..|w| - 1];
      TrimEndPadded(blank, t, w[..|w| - 1]);
    }
  }

  /** A strip is determined by what it keeps: padding a string whose ends are
      not whitespace with whitespace on both sides strips back to that string. */
  lemma {:induction false} StripPadded(blank: char -> bool, w1: string, t: string, w2: string)
    requires AllBlank(blank, w1) && AllBlank(blank, w2)
    requires t == [] || (!blank(t[0]) && !blank(t[|t| - 1]))
    ensures StripBy(blank, w1 + t + w2) == t
  {
    var s := w1 + t + w2;
    if w1 != [] {
      assert s[0] == w1[0];
      assert s[1..] == w1[1..] + t + w2;
      StripPadded(blank, w1[1..], t, w2);
    } else if t == [] {
      assert s == w2;
      StripShape(blank, w2);
    } else {
      assert s == t + w2;
      assert s[0] == t[0];
      TrimEndPadded(blank, t, w2);
    }
  }

  /** Stripping twice is stripping once. */
  lemma StripIdempotent(blank: char -> bool, s: string)
    ensures StripBy(blank, StripBy(blank, s)) == StripBy(blank, s)
  {
    var r := StripBy(blank, s);
    StripShape(blank, s);
    StripPadded(blank, [], r, []);
    assert [] + r + [] == r;
  }

  predicate IsDigit(c: char) { '0' <= c <= '9' }

  function DigitValue(c: char): nat
    requires IsDigit(c)
  {
    (c as int) - ('0' as int)
  }

  function DigitChar(d: nat): (c: char)
    requires d < 10
    ensures IsDigit(c) && DigitValue(c) == d
  {
    (('0' as int) + d) as char
  }

  predicate AllDigits(s: string) {
    forall i :: 0 <= i < |s| ==> IsDigit(s[i])
  }

  /** The run of digits `int()` accepts in base 10: at least one digit, and any
      `_` standing alone between two digits (`"1_000"`, but not `"_1"`, `"1_"`
      or `"1__0"`). Leading zeros are allowed. */
  predicate IsDigitRun(s: string) {
    && |s| > 0 && IsDigit(s[0]) && IsDigit(s[|s| - 1])
    && (forall i :: 0 <= i < |s| ==> IsDigit(s[i]) || s[i] == '_')
    && (forall i :: 0 <= i < |s| - 1 && s[i] == '_' ==> s[i + 1] != '_')
  }

  /** The digits of a run, underscores dropped. */
  function DropUnderscores(s: string): (r: string)
    ensures |r| <= |s|
    ensures (forall i :: 0 <= i < |s| ==> IsDigit(s[i]) || s[i] == '_') ==> AllDigits(r)
  {
    if s == [] then []
    else if s[0] == '_' then DropUnderscores(s[1..])
    else [s[0]] + DropUnderscores(s[1..])
  }

  /** The number a string of decimal digits denotes, most significant first. */
  function DecimalValue(d: string): nat
    requires AllDigits(d)
  {
    if d == [] then 0 else DecimalValue(d[..|d| - 1]) * 10 + DigitValue(d[|d| - 1])
  }

  /** Python's `int(s)` for a `str` in base 10. `None` stands for the
      `ValueError` it raises. */
  function ParseInt(s: string): (r: Option<int>)
    ensures s == [] ==> r == None
  {
    ParseDigits(StripBy(IsIntSpace, s))
  }

  /** What `int()` accepts once the surrounding whitespace is gone: an optional
      sign and a run of digits. */
  function ParseDigits(t: string): Option<int> {
    if |t| > 0 && (t[0] == '+' || t[0] == '-') then
      if IsDigitRun(t[1..]) then
        var v: int := DecimalValue(DropUnderscores(t[1..]));
        Some(if t[0] == '-' then -v else v)
      else None
    else if IsDigitRun(t) then Some(DecimalValue(DropUnderscores(t)))
    else None
  }

  /** `int()` rejects every string without a digit in it, the empty string
      included. */
  lemma ParseIntNeedsDigit(s: string)
    requires ParseInt(s).Some?
    ensures exists i :: 0 <= i < |s| && IsDigit(s[i])
  {
    var t := StripBy(IsIntSpace, s);
    StripIsInfix(IsIntSpace, s);
    var k := |s| - |TrimStart(IsIntSpace, s)|;
    if t[0] == '+' || t[0] == '-' {
      assert IsDigit(t[1]) && s[k + 1] == t[1];
    } else {
      assert IsDigit(t[0]) && s[k] == t[0];
    }
  }

  /** Python's `str(n)` for a natural number. */
  function NatToDecimal(n: nat): (s: string)
    ensures |s| > 0 && AllDigits(s)
  {
    if n < 10 then [DigitChar(n)] else NatToDecimal(n / 10) + [DigitChar(n % 10)]
  }

  /** Python's `str(k)` for an integer: a `-` in front of the digits of a negative number. */
  function FormatInt(k: int): string {
    if k < 0 then "-" + NatToDecimal(-k) else NatToDecimal(k)
  }

  lemma {:induction false} DecimalRoundTrip(n: nat)
    ensures DecimalValue(NatToDecimal(n)) == n
  {
    if n >= 10 {
      var s := NatToDecimal(n);
      assert s[..|s| - 1] == NatToDecimal(n / 10);
      DecimalRoundTrip(n / 10);
    }
  }

  lemma {:induction false} DropUnderscoresOfDigits(s: string)
    requires AllDigits(s)
    ensures DropUnderscores(s) == s
  {
    if s != [] {
      DropUnderscoresOfDigits(s[1..]);
    }
  }

  /** `int(str(k)) == k`: every integer's decimal spelling parses back to it. */
  lemma ParseFormatRoundTrip(k: int)
    ensures ParseInt(FormatInt(k)) == Some(k)
  {
    var s := FormatInt(k);
    var n: nat := if k < 0 then -k else k;
    var d := NatToDecimal(n);
    DropUnderscoresOfDigits(d);
    DecimalRoundTrip(n);
    assert IsDigitRun(d);
    StripOfNumber(k);
    if k < 0 {
      assert s == "-" + d && s[1..] == d;
      ParseSigned(s);
    } else {
      ParseUnsigned(s);
    }
  }

  lemma ParseUnsigned(s: string)
    requires IsDigitRun(s)
    ensures ParseDigits(s) == Some(DecimalValue(DropUnderscores(s)))
  {
  }

  lemma ParseSigned(s: string)
    requires |s| > 0 && s[0] == '-' && IsDigitRun(s[1..])
    ensures ParseDigits(s) == Some(-(DecimalValue(DropUnderscores(s[1..])) as int))
  {
  }

  lemma StripOfNumber(k: int)
    ensures StripBy(IsIntSpace, FormatInt(k)) == FormatInt(k)
  {
    var s := FormatInt(k);
    assert !IsIntSpace(s[0]) && !IsIntSpace(s[|s| - 1]);
    StripPadded(IsIntSpace, [], s, []);
    assert [] + s + [] == s;
  }

  /** The information separators U+001C..U+001F are whitespace to `strip()`
      but not to `int()`: `"\x1c5".strip()` is `"5"`, yet `int("\x1c5")`
      raises. */
  lemma IntKeepsSeparators(c: char, t: string)
    requires 0x1C <= c as int <= 0x1F
    ensures Strip([c] + t) == Strip(t)
    ensures ParseInt([c] + t) == None
  {
    var s := [c] + t;
    assert s[0] == c && s[1..] == t;
    var r := StripBy(IsIntSpace, s);
    assert r == TrimEnd(IsIntSpace, s);
    StripShape(IsIntSpace, s);
    assert r[0] == c;
  }

  /** Every other `isspace()` character outside ASCII is whitespace to `int()`
      as well: `int("\xa05") == 5`. */
  lemma IntSkipsUnicodeSpace(c: char, t: string)
    requires IsSpace(c) && c as int >= 0x80
    ensures ParseInt([c] + t) == ParseInt(t)
  {
    var s := [c] + t;
    assert s[0] == c && s[1..] == t;
    assert StripBy(IsIntSpace, s) == StripBy(IsIntSpace, t);
  }

  /** `s.split(sep)`: the pieces between the separators, at least one. */
  function Split(s: string, sep: char): (parts: seq<string>)
    ensures |parts| >= 1
    ensures forall p :: p in parts ==> sep !in p
  {
    if s == [] then [[]]
    else
      var rest := Split(s[1..], sep);
      if s[0] == sep then [[]] + rest
      else [[s[0]] + rest[0]] + rest[1..]
  }

  /** `split` cuts the string exactly when the separator occurs in it. */
  lemma {:induction false} SplitOnePiece(s: string, sep: char)
    ensures |Split(s, sep)| == 1 <==> sep !in s
  {
    if s != [] {
      SplitOnePiece(s[1..], sep);
      assert sep in s <==> s[0] == sep || sep in s[1..];
    }
  }

  /** `sep.join(parts)`. */
  function Join(parts: seq<string>, sep: char): string
    requires |parts| >= 1
  {
    if |parts| == 1 then parts[0] else parts[0] + [sep] + Join(parts[1..], sep)
  }

  /** Joining the pieces of a split gives back the string. */
  lemma {:induction false} JoinSplit(s: string, sep: char)
    ensures Join(Split(s, sep), sep) == s
  {
    if s != [] {
      var rest := Split(s[1..], sep);
      JoinSplit(s[1..], sep);
      if s[0] != sep && |rest| > 1 {
        assert ([[s[0]] + rest[0]] + rest[1..])[1..] == rest[1..];
      } else if s[0] == sep {
        assert ([[]] + rest)[1..] == rest;
      }
    }
  }

  lemma {:induction false} SplitNoSep(p: string, sep: char)
    requires sep !in p
    ensures Split(p, sep) == [p]
  {
    if p != [] {
      SplitNoSep(p[1..], sep);
      assert [p[0]] + p[1..] == p;
    }
  }

  lemma {:induction false} SplitPiece(p: string, sep: char, rest: string)
    requires sep !in p
    ensures Split(p + [sep] + rest, sep) == [p] + Split(rest, sep)
  {
    if p == [] {
      assert p + [sep] + rest == [sep] + rest;
      assert ([sep] + rest)[1..] == rest;
    } else {
      var s := p + [sep] + rest;
      assert s[1..] == p[1..] + [sep] + rest;
      SplitPiece(p[1..], sep, rest);
      assert [p[0]] + p[1..] == p;
    }
  }

  /** Splitting a join whose pieces hold no separator gives back the pieces. */
  lemma {:induction false} SplitJoin(parts: seq<string>, sep: char)
    requires |parts| >= 1
    requires forall i :: 0 <= i < |parts| ==> sep !in parts[i]
    ensures Split(Join(parts, sep), sep) == parts
  {
    if |parts| == 1 {
      SplitNoSep(parts[0], sep);
    } else {
      SplitJoin(parts[1..], sep);
      SplitPiece(parts[0], sep, Join(parts[1..], sep));
      assert [parts[0]] + parts[1..] == parts;
    }
  }
}
