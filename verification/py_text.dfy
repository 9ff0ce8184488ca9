/**
 * The handful of Python `str` operations the services rely on, written out
 * over `seq<char>`: `str(n)` for a non-negative integer, `int(s)` for a
 * base-10 string, `strip()`, `split(sep)[-1]`, `isalnum()`, `in` on strings,
 * `replace(c, '')` and slicing `s[:n]`.
 */
module PyText {
  import opened Wrappers

  predicate IsDigit(c: char) { '0' <= c <= '9' }

  predicate AllDigits(s: string) { forall i :: 0 <= i < |s| ==> IsDigit(s[i]) }

  function DigitValue(c: char): nat requires IsDigit(c) { c as nat - '0' as nat }

  function DigitChar(d: nat): (c: char)
    requires d < 10
    ensures IsDigit(c) && DigitValue(c) == d
  {
    ('0' as nat + d) as char
  }

  /** `str(n)` for `n >= 0`: the decimal digits, no leading zeros. */
  function Dec(n: nat): (s: string)
    ensures |s| > 0 && AllDigits(s)
    ensures n < 10 <==> |s| == 1
  {
    if n < 10 then [DigitChar(n)] else Dec(n / 10) + [DigitChar(n % 10)]
  }

  /** The number a string of ASCII digits denotes (leading zeros allowed). */
  function DigitsValue(s: string): nat
    requires AllDigits(s)
  {
    if s == [] then 0 else 10 * DigitsValue(s[..|s| - 1]) + DigitValue(s[|s| - 1])
  }

  lemma {:induction false} DecRoundTrip(n: nat)
    ensures DigitsValue(Dec(n)) == n
  {
    if n >= 10 {
      var s := Dec(n);
      assert s[..|s| - 1] == Dec(n / 10);
      DecRoundTrip(n / 10);
    }
  }

  lemma DecInjective(m: nat, n: nat)
    requires Dec(m) == Dec(n)
    ensures m == n
  {
    DecRoundTrip(m);
    DecRoundTrip(n);
  }

  /** Python's `str.isspace()` for one character (the full list of code points it accepts). */
  predicate IsSpace(c: char) {
    var n := c as int;
    (9 <= n <= 13) || (28 <= n <= 32) || n == 0x85 || n == 0xA0 || n == 0x1680 ||
    (0x2000 <= n <= 0x200A) || n == 0x2028 || n == 0x2029 || n == 0x202F || n == 0x205F || n == 0x3000
  }

  /**
   * The whitespace `int()` skips around a number. ASCII characters reach
   * CPython's parser unchanged, and it skips only `\t \n \v \f \r` and the
   * space there; beyond ASCII, what `str.isspace()` accepts becomes a space
   * first. So U+001C to U+001F are whitespace to `strip()` but not to `int()`.
   */
  predicate IsIntSpace(c: char) {
    var n := c as int;
    (9 <= n <= 13) || n == 32 || (n >= 128 && IsSpace(c))
  }

  /** Which whitespace a strip removes: `str.strip()`'s or `int()`'s. */
  datatype Whitespace = StrWhitespace | IntWhitespace

  predicate IsWhitespace(w: Whitespace, c: char) {
    match w
    case StrWhitespace => IsSpace(c)
    case IntWhitespace => IsIntSpace(c)
  }

  function StripLeft(w: Whitespace, s: string): (r: string)
    ensures |r| <= |s| && r == s[|s| - |r|..]
    ensures |r| > 0 ==> !IsWhitespace(w, r[0])
  {
    if |s| > 0 && IsWhitespace(w, s[0]) then StripLeft(w, s[1..]) else s
  }

  function StripRight(w: Whitespace, s: string): (r: string)
    ensures |r| <= |s| && r == s[..|r|]
    ensures |r| > 0 ==> !IsWhitespace(w, r[|r| - 1])
  {
    if |s| > 0 && IsWhitespace(w, s[|s| - 1]) then StripRight(w, s[..|s| - 1]) else s
  }

  /** `s.strip()`: leading and trailing whitespace removed. */
  function Strip(s: string): string { StripRight(StrWhitespace, StripLeft(StrWhitespace, s)) }

  /** The text `int()` parses: `s` without the whitespace it skips. */
  function IntStrip(s: string): string { StripRight(IntWhitespace, StripLeft(IntWhitespace, s)) }

  predicate IsPrefix(p: string, s: string) { |p| <= |s| && s[..|p|] == p }

  /** `sub in s`. */
  predicate Contains(s: string, sub: string)
    decreases |s|
  {
    IsPrefix(sub, s) || (|s| > 0 && Contains(s[1..], sub))
  }

  /** `s.split(sep)[-1]`: what follows the last `sep`, or all of `s` when there is none. */
  function LastSegment(s: string, sep: char): (r: string)
    ensures sep !in r
    ensures |r| <= |s| && r == s[|s| - |r|..]
    ensures |r| < |s| ==> s[|s| - |r| - 1] == sep
  {
    if s == [] then []
    else if s[|s| - 1] == sep then []
    else LastSegment(s[..|s| - 1], sep) + [s[|s| - 1]]
  }

  lemma {:induction false} LastSegmentAfterSeparator(a: string, sep: char, b: string)
    requires sep !in b
    ensures LastSegment(a + [sep] + b, sep) == b
  {
    if b != [] {
      var s := a + [sep] + b;
      assert s[..|s| - 1] == a + [sep] + b[..|b| - 1];
      LastSegmentAfterSeparator(a, sep, b[..|b| - 1]);
    } else {
      assert (a + [sep] + b)[|a + [sep] + b| - 1] == sep;
    }
  }

  /** `s.replace(c, '')`. */
  function RemoveAll(s: string, c: char): (r: string)
    ensures c !in r && |r| <= |s|
    ensures forall x :: x in r <==> x in s && x != c
  {
    if s == [] then []
    else (if s[0] == c then [] else [s[0]]) + RemoveAll(s[1..], c)
  }

  predicate IsAsciiAlnum(c: char) { IsDigit(c) || ('a' <= c <= 'z') || ('A' <= c <= 'Z') }

  /** `s.isalnum()` on ASCII text: non-empty and only letters and digits. */
  predicate IsAlnum(s: string) { |s| > 0 && forall i :: 0 <= i < |s| ==> IsAsciiAlnum(s[i]) }

  /** `s[:n]` for `n >= 0`. */
  function Take(s: string, n: nat): (r: string)
    ensures |r| == if |s| < n then |s| else n
    ensures r == s[..|r|]
  {
    if |s| <= n then s else s[..n]
  }

  /**
   * Whether `u` is a body Python's `int()` accepts in base 10: the grammar
   * `digit ("_"? digit)*`, so single underscores may sit between digits.
   */
  predicate IsIntLiteral(u: string) {
    |u| > 0 && IsDigit(u[0]) && IsLiteralTail(u[1..])
  }

  /** `("_"? digit)*` */
  predicate IsLiteralTail(u: string)
    decreases |u|
  {
    || u == []
    || (IsDigit(u[0]) && IsLiteralTail(u[1..]))
    || (|u| >= 2 && u[0] == '_' && IsDigit(u[1]) && IsLiteralTail(u[2..]))
  }

  lemma {:induction false} DigitsAreLiteralTail(u: string)
    requires AllDigits(u)
    ensures IsLiteralTail(u)
  {
    if u != [] {
      DigitsAreLiteralTail(u[1..]);
    }
  }

  /** The digits of a literal, its underscores dropped. */
  function LiteralDigits(u: string): (r: string)
    ensures AllDigits(r)
  {
    if u == [] then []
    else (if IsDigit(u[0]) then [u[0]] else []) + LiteralDigits(u[1..])
  }

  lemma {:induction false} LiteralDigitsOfDigits(s: string)
    requires AllDigits(s)
    ensures LiteralDigits(s) == s
  {
    if s != [] {
      LiteralDigitsOfDigits(s[1..]);
    }
  }

  /** What `int()` makes of a stripped string, or `None` when it raises `ValueError`. */
  function SignedLiteral(t: string): Option<int>
  {
    if |t| > 0 && (t[0] == '+' || t[0] == '-') then
      if IsIntLiteral(t[1..]) then
        var v := DigitsValue(LiteralDigits(t[1..]));
        Some(if t[0] == '-' then -(v as int) else v)
      else None
    else if IsIntLiteral(t) then Some(DigitsValue(LiteralDigits(t)))
    else None
  }

  /**
   * `int(s)` for a string: the whitespace `int()` skips is ignored, an optional
   * sign is accepted, and `None` stands for the `ValueError` it raises.
   */
  function PyInt(s: string): Option<int>
  {
    SignedLiteral(IntStrip(s))
  }

  /**
   * `int()` skips less than `strip()`: digits after a character that
   * `str.isspace()` accepts but `int()` does not skip (U+001C to U+001F)
   * lose that character to `strip()`, but make `int()` raise.
   */
  lemma IntKeepsSeparators(c: char, d: string)
    requires IsSpace(c) && !IsIntSpace(c)
    requires |d| > 0 && AllDigits(d)
    ensures Strip([c] + d) == d
    ensures PyInt([c] + d) == None
  {
    StripRemovesSeparator(c, d);
    IntRejectsSeparator(c, d);
  }

  /** The characters `IntKeepsSeparators` is about are exactly U+001C to U+001F. */
  lemma SeparatorsAreControls(c: char)
    ensures IsSpace(c) && !IsIntSpace(c) <==> 28 <= c as int <= 31
  {
  }

  lemma StripRemovesSeparator(c: char, d: string)
    requires IsSpace(c) && |d| > 0 && AllDigits(d)
    ensures Strip([c] + d) == d
  {
    var s := [c] + d;
    assert IsDigit(d[0]) && IsDigit(d[|d| - 1]);
    assert !IsWhitespace(StrWhitespace, d[0]) && !IsWhitespace(StrWhitespace, d[|d| - 1]);
    assert StripLeft(StrWhitespace, s) == StripLeft(StrWhitespace, d) by {
      assert s[0] == c && s[1..] == d;
      assert IsWhitespace(StrWhitespace, s[0]);
    }
    StripLeftKeeps(StrWhitespace, d);
    StripRightKeeps(StrWhitespace, d);
  }

  lemma IntRejectsSeparator(c: char, d: string)
    requires !IsIntSpace(c) && !IsDigit(c) && c != '+' && c != '-' && |d| > 0 && AllDigits(d)
    ensures PyInt([c] + d) == None
  {
    var s := [c] + d;
    assert s[0] == c && s[|s| - 1] == d[|d| - 1];
    IntStripKeeps(s);
    NotLiteral(s);
  }

  lemma IntStripKeeps(s: string)
    requires |s| > 0 && !IsIntSpace(s[0]) && !IsIntSpace(s[|s| - 1])
    ensures IntStrip(s) == s
  {
    StripKeeps(IntWhitespace, s);
  }

  /** Text that starts with neither a sign nor a digit is not a number to `int()`. */
  lemma NotLiteral(s: string)
    requires |s| > 0 && !IsDigit(s[0]) && s[0] != '+' && s[0] != '-'
    ensures SignedLiteral(s) == None
  {
    assert !IsIntLiteral(s);
  }

  lemma DigitsExclude(s: string, c: char)
    requires AllDigits(s) && !IsDigit(c)
    ensures c !in s
  {
  }

  lemma IntStripDigits(s: string)
    requires AllDigits(s)
    ensures IntStrip(s) == s
  {
    if |s| > 0 {
      assert !IsIntSpace(s[0]) && !IsIntSpace(s[|s| - 1]);
      StripKeeps(IntWhitespace, s);
    }
  }

  /** `int(str(n)) == n` for every `n >= 0`. */
  lemma PyIntOfDec(n: nat)
    ensures PyInt(Dec(n)) == Some(n)
  {
    var s := Dec(n);
    DecRoundTrip(n);
    PyIntOfDigits(s);
  }

  lemma PyIntOfDigits(s: string)
    requires |s| > 0 && AllDigits(s)
    ensures PyInt(s) == Some(DigitsValue(s))
  {
    IntStripDigits(s);
    UnsignedLiteral(s);
    LiteralDigitsOfDigits(s);
  }

  lemma UnsignedLiteral(s: string)
    requires |s| > 0 && AllDigits(s)
    ensures SignedLiteral(s) == Some(DigitsValue(LiteralDigits(s)))
  {
    DigitsAreLiteralTail(s[1..]);
    assert IsIntLiteral(s);
    assert s[0] != '+' && s[0] != '-';
  }

  /** `int()` of a minus sign followed by digits is the negated value of the digits. */
  lemma PyIntOfNegated(t: string)
    requires |t| > 1 && t[0] == '-' && AllDigits(t[1..])
    ensures PyInt(t) == Some(-(DigitsValue(t[1..]) as int))
  {
    assert !IsIntSpace(t[|t| - 1]) by {
      assert t[|t| - 1] == t[1..][|t| - 2];
    }
    StripKeeps(IntWhitespace, t);
    SignedNegative(t);
  }

  lemma StripKeeps(w: Whitespace, t: string)
    requires |t| > 0 && !IsWhitespace(w, t[0]) && !IsWhitespace(w, t[|t| - 1])
    ensures StripRight(w, StripLeft(w, t)) == t
  {
    StripLeftKeeps(w, t);
    StripRightKeeps(w, t);
  }

  lemma SignedNegative(t: string)
    requires |t| > 1 && t[0] == '-' && AllDigits(t[1..])
    ensures SignedLiteral(t) == Some(-(DigitsValue(t[1..]) as int))
  {
    var d := t[1..];
    assert IsIntLiteral(d) by {
      DigitsAreLiteralTail(d[1..]);
    }
    assert LiteralDigits(d) == d by {
      LiteralDigitsOfDigits(d);
    }
  }

  /** The line boundaries of `str.splitlines`. */
  predicate IsLineBreak(c: char) {
    var n := c as int;
    (10 <= n <= 13) || (28 <= n <= 30) || n == 0x85 || n == 0x2028 || n == 0x2029
  }

  predicate NoBreak(s: string) { forall k :: 0 <= k < |s| ==> !IsLineBreak(s[k]) }

  predicate NoSpace(s: string) { forall k :: 0 <= k < |s| ==> !IsSpace(s[k]) }

  /** Index of the first line boundary in `s`, or `|s|` when there is none. */
  function LineEnd(s: string): (i: nat)
    ensures i <= |s|
    ensures i < |s| ==> IsLineBreak(s[i])
  {
    if s == [] || IsLineBreak(s[0]) then 0 else 1 + LineEnd(s[1..])
  }

  lemma {:induction false} LineEndAt(a: string, c: char, rest: string)
    requires NoBreak(a) && IsLineBreak(c)
    ensures LineEnd(a + [c] + rest) == |a|
    decreases |a|
  {
    var s := a + [c] + rest;
    if a != [] {
      assert s[1..] == a[1..] + [c] + rest;
      LineEndAt(a[1..], c, rest);
    }
  }

  lemma {:induction false} LineEndWhole(a: string)
    requires NoBreak(a)
    ensures LineEnd(a) == |a|
    decreases |a|
  {
    if a != [] {
      LineEndWhole(a[1..]);
    }
  }

  /**
   * `str.splitlines()`: the pieces between line boundaries (`"\r\n"` counts
   * as one), with no empty piece after a final boundary.
   */
  function SplitLines(s: string): (lines: seq<string>)
    ensures lines == [] <==> s == []
    decreases |s|
  {
    if s == [] then []
    else
      var i := LineEnd(s);
      var next := if i == |s| then i else if s[i] == '\r' && i + 1 < |s| && s[i + 1] == '\n' then i + 2 else i + 1;
      [s[..i]] + SplitLines(s[next..])
  }

  /** A line followed by a newline is split off the front. */
  lemma SplitFirstLine(a: string, rest: string)
    requires NoBreak(a)
    ensures SplitLines(a + "\n" + rest) == [a] + SplitLines(rest)
  {
    var s := a + "\n" + rest;
    LineEndAt(a, '\n', rest);
    assert s[..|a|] == a;
    assert s[|a| + 1..] == rest;
  }

  lemma SplitOneLine(a: string)
    requires a != [] && NoBreak(a)
    ensures SplitLines(a) == [a]
  {
    LineEndWhole(a);
    assert a[..|a|] == a && a[|a|..] == [];
  }

  /** `"\n".join(lines)`. */
  function Joined(lines: seq<string>): string
  {
    if |lines| == 0 then ""
    else if |lines| == 1 then lines[0]
    else lines[0] + "\n" + Joined(lines[1..])
  }

  /** A join starts with the first line and ends with the last. */
  lemma {:induction false} JoinedEnds(lines: seq<string>)
    requires |lines| > 0
    ensures IsPrefix(lines[0], Joined(lines))
    ensures var s, last := Joined(lines), lines[|lines| - 1]; |last| <= |s| && s[|s| - |last|..] == last
    decreases |lines|
  {
    if |lines| > 1 {
      JoinedEnds(lines[1..]);
    }
  }

  /** Every line boundary is whitespace to `str.strip`. */
  lemma NoSpaceNoBreak(s: string)
    requires NoSpace(s)
    ensures NoBreak(s)
  {
  }

  /** Lines that survive a join and split: none empty, none holding a boundary. */
  predicate PlainLines(lines: seq<string>)
  {
    forall k :: 0 <= k < |lines| ==> lines[k] != "" && NoBreak(lines[k])
  }

  /** Splitting lines joined by newlines gives them back. */
  lemma {:induction false} SplitJoined(lines: seq<string>)
    requires PlainLines(lines)
    ensures SplitLines(Joined(lines)) == lines
    decreases |lines|
  {
    if |lines| == 1 {
      SplitOneLine(lines[0]);
    } else if |lines| > 1 {
      var rest := Joined(lines[1..]);
      assert Joined(lines) == lines[0] + "\n" + rest;
      assert SplitLines(lines[0] + "\n" + rest) == [lines[0]] + SplitLines(rest) by {
        SplitFirstLine(lines[0], rest);
      }
      assert SplitLines(rest) == lines[1..] by {
        assert PlainLines(lines[1..]);
        SplitJoined(lines[1..]);
      }
      assert lines == [lines[0]] + lines[1..];
    }
  }

  /** With a final newline, as command-line tools print them, the lines split the same way. */
  lemma {:induction false} SplitTerminated(lines: seq<string>)
    requires |lines| > 0 && PlainLines(lines)
    ensures SplitLines(Joined(lines) + "\n") == lines
    decreases |lines|
  {
    if |lines| == 1 {
      assert Joined(lines) + "\n" == lines[0] + "\n" + "";
      SplitFirstLine(lines[0], "");
    } else {
      var rest := Joined(lines[1..]) + "\n";
      assert Joined(lines) + "\n" == lines[0] + "\n" + rest;
      assert SplitLines(lines[0] + "\n" + rest) == [lines[0]] + SplitLines(rest) by {
        SplitFirstLine(lines[0], rest);
      }
      assert SplitLines(rest) == lines[1..] by {
        assert PlainLines(lines[1..]);
        SplitTerminated(lines[1..]);
      }
      assert lines == [lines[0]] + lines[1..];
    }
  }

  /** Stripping newline-terminated lines removes only the final newline. */
  lemma StripTerminated(lines: seq<string>)
    requires |lines| > 0
    requires forall k :: 0 <= k < |lines| ==> lines[k] != "" && NoSpace(lines[k])
    ensures Strip(Joined(lines) + "\n") == Joined(lines)
  {
    var s := Joined(lines);
    var first := lines[0];
    var last := lines[|lines| - 1];
    assert |first| > 0 && !IsSpace(first[0]);
    assert |last| > 0 && !IsSpace(last[|last| - 1]);
    assert |s| > 0 && s[0] == first[0] && s[|s| - 1] == last[|last| - 1] by {
      JoinedEnds(lines);
      assert s[0] == s[..|first|][0];
      assert s[|s| - 1] == s[|s| - |last|..][|last| - 1];
    }
    assert StripLeft(StrWhitespace, s + "\n") == s + "\n" by {
      StripLeftKeeps(StrWhitespace, s + "\n");
    }
    assert StripRight(StrWhitespace, s + "\n") == s by {
      StripRightNewline(s);
    }
  }

  lemma StripLeftKeeps(w: Whitespace, t: string)
    requires |t| > 0 && !IsWhitespace(w, t[0])
    ensures StripLeft(w, t) == t
  {
  }

  lemma StripRightKeeps(w: Whitespace, t: string)
    requires |t| > 0 && !IsWhitespace(w, t[|t| - 1])
    ensures StripRight(w, t) == t
  {
  }

  lemma StripRightNewline(s: string)
    requires |s| > 0 && !IsSpace(s[|s| - 1])
    ensures StripRight(StrWhitespace, s + "\n") == s
  {
    var t := s + "\n";
    assert IsSpace(t[|t| - 1]);
    assert t[..|t| - 1] == s;
  }
}
