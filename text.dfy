/**
 * The few Python string operations the evaluator relies on, written over
 * `seq<char>`: `str.isspace`, `str.strip`, `str.split("\n")`, `sep.join(...)`,
 * `str.startswith`, `str(n)` for naturals and `format(x, ".1f")`.
 */
module Text {

  /** Python's `str.isspace()` on one character: the Unicode white-space code points. */
  predicate IsSpace(c: char) {
    var n := c as int;
    (9 <= n <= 13) || (28 <= n <= 32) || n == 0x85 || n == 0xA0 || n == 0x1680
    || (0x2000 <= n <= 0x200A) || n == 0x2028 || n == 0x2029 || n == 0x202F
    || n == 0x205F || n == 0x3000
  }

  predicate AllSpace(s: string) {
    forall k :: 0 <= k < |s| ==> IsSpace(s[k])
  }

  /** Neither the first nor the last character is white space. */
  predicate NoOuterSpace(s: string) {
    s == [] || (!IsSpace(s[0]) && !IsSpace(s[|s| - 1]))
  }

  /** The number of leading white-space characters. */
  function LeadingSpace(s: string): (n: nat)
    ensures n <= |s| && AllSpace(s[..n])
    ensures n == |s| || !IsSpace(s[n])
  {
    if |s| > 0 && IsSpace(s[0]) then
      var m := LeadingSpace(s[1..]);
      m + 1
    else 0
  }

  /** The number of trailing white-space characters. */
  function TrailingSpace(s: string): (n: nat)
    ensures n <= |s| && AllSpace(s[|s| - n..])
    ensures n == |s| || !IsSpace(s[|s| - n - 1])
  {
    if |s| > 0 && IsSpace(s[|s| - 1]) then
      var init := s[..|s| - 1];
      var m := TrailingSpace(init);
      m + 1
    else 0
  }

  /** Python's `str.lstrip()`: the suffix left after the leading white space. */
  function TrimStart(s: string): string {
    s[LeadingSpace(s)..]
  }

  /** Python's `str.rstrip()`: the prefix left before the trailing white space. */
  function TrimEnd(s: string): string {
    s[..|s| - TrailingSpace(s)]
  }

  /** Python's `str.strip()`: the result has no white space at either end. */
  function Strip(s: string): (r: string)
    ensures NoOuterSpace(r)
  {
    TrimEnd(TrimStart(s))
  }

  /** `Strip` only cuts white space off the two ends: its result is a slice of `s`. */
  lemma StripIsSlice(s: string)
    ensures exists i :: 0 <= i <= |s| - |Strip(s)| && Strip(s) == s[i..i + |Strip(s)|]
                        && AllSpace(s[..i]) && AllSpace(s[i + |Strip(s)|..])
  {
    var t := TrimStart(s);
    var r := Strip(s);
    var i := |s| - |t|;
    assert s[i..][..|r|] == r;
    assert s[i + |r|..] == t[|r|..];
    assert 0 <= i <= |s| - |r| && r == s[i..i + |r|] && AllSpace(s[..i]) && AllSpace(s[i + |r|..]);
  }

  /** Stripping a string that has no outer white space changes nothing. */
  lemma StripKeeps(s: string)
    requires NoOuterSpace(s)
    ensures Strip(s) == s
  {
    assert TrimStart(s) == s;
  }

  /** Python's `s.split(sep)` for a one-character separator: never empty, no piece holds `sep`. */
  function Split(s: string, sep: char): (r: seq<string>)
    ensures |r| >= 1
    ensures forall k :: 0 <= k < |r| ==> sep !in r[k]
  {
    if s == [] then [""]
    else
      var rest := Split(s[1..], sep);
      if s[0] == sep then [""] + rest else [[s[0]] + rest[0]] + rest[1..]
  }

  /** Python's `sep.join(lines)`. */
  function Join(lines: seq<string>, sep: string): string {
    if |lines| == 0 then ""
    else if |lines| == 1 then lines[0]
    else lines[0] + sep + Join(lines[1..], sep)
  }

  /** Joining the pieces of a split with the separator gives the string back. */
  lemma {:induction false} JoinSplit(s: string, sep: char)
    ensures Join(Split(s, sep), [sep]) == s
  {
    if s != [] {
      var rest := Split(s[1..], sep);
      JoinSplit(s[1..], sep);
      if s[0] == sep {
        assert Split(s, sep)[1..] == rest;
      } else if |rest| >= 2 {
        assert Split(s, sep)[1..] == rest[1..];
        assert Join(rest, [sep]) == rest[0] + [sep] + Join(rest[1..], [sep]);
      }
    }
  }

  /** A string without the separator splits into itself alone. */
  lemma {:induction false} SplitWithoutSep(s: string, sep: char)
    requires sep !in s
    ensures Split(s, sep) == [s]
  {
    if s != [] {
      assert s[0] != sep;
      SplitWithoutSep(s[1..], sep);
      assert [s[0]] + s[1..] == s;
    }
  }

  /** Splitting at one separator occurrence splits the two sides independently. */
  lemma {:induction false} SplitAt(x: string, sep: char, y: string)
    ensures Split(x + [sep] + y, sep) == Split(x, sep) + Split(y, sep)
  {
    if x == [] {
      assert [] + [sep] + y == [sep] + y;
      assert ([sep] + y)[1..] == y;
    } else {
      SplitAt(x[1..], sep, y);
      assert x + [sep] + y == [x[0]] + (x[1..] + [sep] + y);
      SplitCons(x, sep, x[1..] + [sep] + y, Split(y, sep));
    }
  }

  /** One step of `SplitAt`: a first character in front of both sides. */
  lemma SplitCons(x: string, sep: char, t: string, tail: seq<string>)
    requires x != [] && Split(t, sep) == Split(x[1..], sep) + tail
    ensures Split([x[0]] + t, sep) == Split(x, sep) + tail
  {
    var s := [x[0]] + t;
    assert s[0] == x[0] && s[1..] == t;
    SplitFirst(s, sep);
    SplitFirst(x, sep);
    FrontSplice(x[0], Split(x[1..], sep), tail);
  }

  /** The list algebra behind `SplitCons`, free of `Split` itself. */
  lemma FrontSplice(c: char, head: seq<string>, tail: seq<string>)
    requires |head| >= 1
    ensures [""] + (head + tail) == ([""] + head) + tail
    ensures [[c] + (head + tail)[0]] + (head + tail)[1..] == ([[c] + head[0]] + head[1..]) + tail
  {
    assert (head + tail)[1..] == head[1..] + tail;
  }

  /** How `Split` treats the first character of a non-empty string. */
  lemma SplitFirst(s: string, sep: char)
    requires s != []
    ensures s[0] == sep ==> Split(s, sep) == [""] + Split(s[1..], sep)
    ensures s[0] != sep ==> Split(s, sep) == [[s[0]] + Split(s[1..], sep)[0]] + Split(s[1..], sep)[1..]
  {
  }

  /** Splitting lines joined with a separator they do not contain recovers the lines. */
  lemma {:induction false} SplitJoin(lines: seq<string>, sep: char)
    requires |lines| >= 1
    requires forall k :: 0 <= k < |lines| ==> sep !in lines[k]
    ensures Split(Join(lines, [sep]), sep) == lines
  {
    SplitWithoutSep(lines[0], sep);
    if |lines| >= 2 {
      SplitJoin(lines[1..], sep);
      SplitAt(lines[0], sep, Join(lines[1..], [sep]));
      assert [lines[0]] + lines[1..] == lines;
    }
  }

  /** Python's `s.startswith(prefix)`. */
  predicate StartsWith(s: string, prefix: string) {
    |prefix| <= |s| && s[..|prefix|] == prefix
  }

  function Digit(d: nat): (c: char)
    requires d < 10
  {
    "0123456789"[d]
  }

  /** Python's `str(n)` for a natural number: decimal digits, no leading zero. */
  function NatToString(n: nat): (r: string)
    ensures |r| >= 1
    ensures forall k :: 0 <= k < |r| ==> '0' <= r[k] <= '9'
  {
    if n < 10 then [Digit(n)] else NatToString(n / 10) + [Digit(n % 10)]
  }

  /** Python's `int(s)` on a string of decimal digits: the value the digits denote. */
  function DigitsValue(s: string): int {
    if s == [] then 0 else 10 * DigitsValue(s[..|s| - 1]) + (s[|s| - 1] as int - '0' as int)
  }

  /** Reading back the digits of `str(n)` gives `n`. */
  lemma {:induction false} NatToStringValue(n: nat)
    ensures DigitsValue(NatToString(n)) == n
  {
    DigitValue(n % 10);
    if n >= 10 {
      NatToStringValue(n / 10);
      var r := NatToString(n);
      assert r[..|r| - 1] == NatToString(n / 10);
    } else {
      assert NatToString(n)[..0] == [];
    }
  }

  lemma DigitValue(d: nat)
    requires d < 10
    ensures Digit(d) as int - '0' as int == d
  {
  }

  /** Rounds a non-negative value to the nearest integer, ties to the even one. */
  function RoundHalfEven(y: real): (n: nat)
    requires y >= 0.0
    ensures (n as real) - 0.5 <= y <= (n as real) + 0.5
  {
    var f := y.Floor;
    var frac := y - f as real;
    if frac > 0.5 || (frac == 0.5 && f % 2 == 1) then f + 1 else f
  }

  /**
   * Python's `format(x, ".1f")` applied to the exact value `x`: one decimal,
   * rounded half to even, with a minus sign for every negative value.
   */
  function FormatTenths(x: real): string {
    if x < 0.0 then "-" + FormatTenthsNonNeg(-x) else FormatTenthsNonNeg(x)
  }

  /**
   * A value with at most one decimal renders exactly: its whole part, a dot
   * and its tenths digit, with a minus sign when it is negative.
   */
  lemma FormatTenthsExact(k: nat)
    ensures FormatTenths(k as real / 10.0) == NatToString(k / 10) + "." + NatToString(k % 10)
    ensures k > 0 ==> FormatTenths(-(k as real) / 10.0) == "-" + NatToString(k / 10) + "." + NatToString(k % 10)
  {
    RoundWhole(k);
    assert (k as real / 10.0) * 10.0 == k as real;
    assert -(-(k as real) / 10.0) == k as real / 10.0;
  }

  /** A whole number rounds to itself. */
  lemma RoundWhole(k: nat)
    ensures RoundHalfEven(k as real) == k
  {
    assert (k as real).Floor == k;
  }

  function FormatTenthsNonNeg(x: real): string
    requires x >= 0.0
  {
    var t := RoundHalfEven(x * 10.0);
    NatToString(t / 10) + "." + NatToString(t % 10)
  }
}
