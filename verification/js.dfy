/**
  The parts of JavaScript's number and string semantics that the front end relies on:
  the truncating `%` operator, `Math.floor`, the `\s` character class and `String.prototype.trim`,
  `split`/`join` on a one-character separator, and the decimal rendering of integers.
*/
module Js {

  /** A value of type `T | undefined`. */
  datatype Option<T> = None | Some(value: T)

  // ---------------------------------------------------------------------------
  // Numbers
  // ---------------------------------------------------------------------------

  /** x has no fractional part. */
  predicate IsInteger(x: real) {
    x == x.Floor as real
  }

  /** x and y differ by a whole number of turns of 360 degrees. */
  predicate SameTurn(x: real, y: real) {
    IsInteger((x - y) / 360.0)
  }

  /** `Math.trunc`: the integer part of x, rounded toward zero. */
  function Trunc(x: real): (t: int)
    ensures x >= 0.0 ==> t as real <= x < t as real + 1.0
    ensures x <= 0.0 ==> t as real - 1.0 < x <= t as real
  {
    if x >= 0.0 then x.Floor else -((-x).Floor)
  }

  /**
    JavaScript's `x % 360`: the remainder of truncating division, which keeps the sign
    of the dividend (so it is negative for a negative x).
  */
  function Rem360(x: real): (r: real)
    ensures x >= 0.0 ==> 0.0 <= r < 360.0
    ensures x <= 0.0 ==> -360.0 < r <= 0.0
    ensures SameTurn(x, r)
  {
    var t := Trunc(x / 360.0);
    assert (x - (x - 360.0 * t as real)) / 360.0 == t as real;
    x - 360.0 * t as real
  }

  lemma SameTurnTrans(x: real, y: real, z: real)
    requires SameTurn(x, y) && SameTurn(y, z)
    ensures SameTurn(x, z)
  {
    var a := (x - y) / 360.0;
    var b := (y - z) / 360.0;
    assert (x - z) / 360.0 == a + b;
    assert (a + b).Floor == a.Floor + b.Floor;
  }

  lemma SameTurnSymm(x: real, y: real)
    requires SameTurn(x, y)
    ensures SameTurn(y, x)
  {
    var a := (x - y) / 360.0;
    assert (y - x) / 360.0 == -a;
    assert (-a).Floor == -(a.Floor);
  }

  /** Adding or removing whole turns does not change the class. */
  lemma SameTurnShift(x: real, y: real, k: int)
    ensures SameTurn(x + 360.0 * k as real, y) <==> SameTurn(x, y)
  {
    var a := (x - y) / 360.0;
    assert (x + 360.0 * k as real - y) / 360.0 == a + k as real;
    assert (a + k as real).Floor == a.Floor + k;
  }

  /** Two angles in [0, 360) that differ by whole turns are equal. */
  lemma SameTurnUnique(a: real, b: real)
    requires 0.0 <= a < 360.0 && 0.0 <= b < 360.0
    requires SameTurn(a, b)
    ensures a == b
  {
    var q := (a - b) / 360.0;
    assert -1.0 < q < 1.0;
  }

  /** JavaScript's `a % n` on integers, for a positive n: truncated, sign of the dividend. */
  function IntRem(a: int, n: int): (r: int)
    requires n > 0
    ensures a >= 0 ==> r == a % n
    ensures a < 0 ==> -n < r <= 0
  {
    if a >= 0 then a % n else -((-a) % n)
  }

  // ---------------------------------------------------------------------------
  // Characters and whitespace
  // ---------------------------------------------------------------------------

  /**
    The characters matched by `\s` and removed by `trim`: ECMAScript's WhiteSpace and
    LineTerminator productions.
  */
  predicate IsWhitespace(c: char)
    ensures IsWhitespace(c) ==> !IsAsciiLower(c) && !IsAsciiUpper(c) && !IsDigit(c)
    ensures IsWhitespace(c) ==> c != '@' && c != '.' && c != '_' && c != '-'
  {
    c == '\t' || c == '\n' || c == '\U{000B}' || c == '\U{000C}' || c == '\r' || c == ' '
    || c == '\U{00A0}' || c == '\U{1680}' || ('\U{2000}' <= c <= '\U{200A}')
    || c == '\U{2028}' || c == '\U{2029}' || c == '\U{202F}' || c == '\U{205F}'
    || c == '\U{3000}' || c == '\U{FEFF}'
  }

  predicate IsAsciiLower(c: char) { 'a' <= c <= 'z' }
  predicate IsAsciiUpper(c: char) { 'A' <= c <= 'Z' }
  predicate IsDigit(c: char) { '0' <= c <= '9' }

  /** Every character of s is whitespace (vacuously true of ""). */
  predicate AllWhitespace(s: string) {
    s == "" || (IsWhitespace(s[0]) && AllWhitespace(s[1..]))
  }

  lemma {:induction false} AllWhitespaceAt(s: string)
    ensures AllWhitespace(s) <==> forall i :: 0 <= i < |s| ==> IsWhitespace(s[i])
  {
    if s != "" {
      AllWhitespaceAt(s[1..]);
      assert forall i :: 1 <= i < |s| ==> s[i] == s[1..][i - 1];
    }
  }

  /** Some character of s satisfies p: what an unanchored one-class regex test such as `/[a-z]/` decides. */
  predicate AnyChar(s: string, p: char -> bool) {
    s != "" && (p(s[0]) || AnyChar(s[1..], p))
  }

  lemma {:induction false} AnyCharAt(s: string, p: char -> bool)
    ensures AnyChar(s, p) <==> exists i :: 0 <= i < |s| && p(s[i])
  {
    if s != "" {
      AnyCharAt(s[1..], p);
      assert forall i :: 1 <= i < |s| ==> s[i] == s[1..][i - 1];
    }
  }

  /** Every character of s satisfies p (vacuously true of ""). */
  predicate AllChars(s: string, p: char -> bool) {
    s == "" || (p(s[0]) && AllChars(s[1..], p))
  }

  lemma {:induction false} AllCharsAt(s: string, p: char -> bool)
    ensures AllChars(s, p) <==> forall i :: 0 <= i < |s| ==> p(s[i])
  {
    if s != "" {
      AllCharsAt(s[1..], p);
      assert forall i :: 1 <= i < |s| ==> s[i] == s[1..][i - 1];
    }
  }

  lemma {:induction false} AllWhitespaceAppend(a: string, b: string)
    ensures AllWhitespace(a + b) <==> AllWhitespace(a) && AllWhitespace(b)
  {
    if a != "" {
      assert (a + b)[0] == a[0] && (a + b)[1..] == a[1..] + b;
      AllWhitespaceAppend(a[1..], b);
    } else {
      assert a + b == b;
    }
  }

  function TrimStart(s: string): (r: string)
    ensures |r| <= |s| && r == s[|s| - |r|..]
    ensures r != "" ==> !IsWhitespace(r[0])
    ensures AllWhitespace(s[..|s| - |r|])
  {
    if s == "" || !IsWhitespace(s[0]) then s
    else
      var r := TrimStart(s[1..]);
      assert s[..|s| - |r|][1..] == s[1..][..|s[1..]| - |r|];
      r
  }

  function TrimEnd(s: string): (r: string)
    ensures |r| <= |s| && r == s[..|r|]
    ensures r != "" ==> !IsWhitespace(r[|r| - 1])
    ensures AllWhitespace(s[|r|..])
  {
    if s == "" || !IsWhitespace(s[|s| - 1]) then s
    else
      var r := TrimEnd(s[..|s| - 1]);
      assert s[|r|..] == s[..|s| - 1][|r|..] + [s[|s| - 1]];
      AllWhitespaceAppend(s[..|s| - 1][|r|..], [s[|s| - 1]]);
      r
  }

  /** `s.trim()`. */
  function Trim(s: string): (r: string)
    ensures r != "" ==> !IsWhitespace(r[0]) && !IsWhitespace(r[|r| - 1])
    ensures exists pre, post :: s == pre + r + post && AllWhitespace(pre) && AllWhitespace(post)
  {
    TrimCutsBlankEnds(s);
    TrimEnd(TrimStart(s))
  }

  /** What trimming removes is whitespace on either side of what it keeps. */
  lemma TrimCutsBlankEnds(s: string)
    ensures var r := TrimEnd(TrimStart(s));
            exists pre, post :: s == pre + r + post && AllWhitespace(pre) && AllWhitespace(post)
  {
    var a := TrimStart(s);
    var r := TrimEnd(a);
    var pre, post := s[..|s| - |a|], a[|r|..];
    BlankEnds(s, pre, a, r, post);
  }

  lemma BlankEnds(s: string, pre: string, a: string, r: string, post: string)
    requires |pre| <= |s| && pre == s[..|pre|] && a == s[|pre|..]
    requires |r| <= |a| && r == a[..|r|] && post == a[|r|..]
    requires AllWhitespace(pre) && AllWhitespace(post)
    ensures exists pre, post :: s == pre + r + post && AllWhitespace(pre) && AllWhitespace(post)
  {
    PieceOfThree(s, pre, a, r, post);
  }

  lemma PieceOfThree(s: string, pre: string, a: string, r: string, post: string)
    requires |pre| <= |s| && pre == s[..|pre|] && a == s[|pre|..]
    requires |r| <= |a| && r == a[..|r|] && post == a[|r|..]
    ensures s == pre + r + post
  {
    assert a == r + post;
    assert s == pre + a;
  }

  /** `!s.trim()` / `s.trim().length === 0`: true exactly for strings made only of whitespace. */
  lemma TrimStartKeepsBlank(s: string)
    ensures AllWhitespace(s) <==> AllWhitespace(TrimStart(s))
  {
    var a := TrimStart(s);
    assert s == s[..|s| - |a|] + a;
    AllWhitespaceAppend(s[..|s| - |a|], a);
  }

  lemma TrimEndEmptyIff(a: string)
    ensures TrimEnd(a) == "" <==> AllWhitespace(a)
  {
    var r := TrimEnd(a);
    if r == "" {
      assert a[|r|..] == a;
    } else {
      assert a[|r| - 1] == r[|r| - 1];
      AllWhitespaceAt(a);
    }
  }

  lemma TrimEmptyIff(s: string)
    ensures Trim(s) == "" <==> AllWhitespace(s)
  {
    TrimStartKeepsBlank(s);
    TrimEndEmptyIff(TrimStart(s));
  }

  /** `!s.trim()`: nothing is left once the string is trimmed. */
  method IsBlank(s: string) returns (b: bool)
    ensures b <==> AllWhitespace(s)
  {
    TrimEmptyIff(s);
    b := Trim(s) == "";
  }

  // ---------------------------------------------------------------------------
  // split / join on a one-character separator
  // ---------------------------------------------------------------------------

  /** Position of the first occurrence of c in s. */
  function IndexOf(s: string, c: char): (i: nat)
    requires c in s
    ensures i < |s| && s[i] == c && c !in s[..i]
  {
    if s[0] == c then 0
    else
      var j := IndexOf(s[1..], c);
      assert s[..j + 1] == [s[0]] + s[1..][..j];
      j + 1
  }

  /** `s.split(sep)` for a one-character separator: the pieces between separators, empty ones kept. */
  function Split(s: string, sep: char): (parts: seq<string>)
    ensures |parts| >= 1
    ensures forall k :: 0 <= k < |parts| ==> sep !in parts[k]
    decreases |s|
  {
    if sep !in s then [s]
    else
      var i := IndexOf(s, sep);
      [s[..i]] + Split(s[i + 1..], sep)
  }

  /** `parts.join(sep)`. */
  function Join(parts: seq<string>, sep: string): (s: string)
    ensures parts != [] ==> parts[0] <= s
  {
    if parts == [] then ""
    else if |parts| == 1 then parts[0]
    else parts[0] + sep + Join(parts[1..], sep)
  }

  /** Joining the pieces of a split with the same separator gives back the string. */
  lemma {:induction false} JoinSplit(s: string, sep: char)
    ensures Join(Split(s, sep), [sep]) == s
    decreases |s|
  {
    if sep in s {
      var i := IndexOf(s, sep);
      var rest := Split(s[i + 1..], sep);
      JoinSplit(s[i + 1..], sep);
      var parts := [s[..i]] + rest;
      assert Split(s, sep) == parts;
      assert |parts| > 1 && parts[0] == s[..i] && parts[1..] == rest;
      assert Join(parts, [sep]) == s[..i] + [sep] + s[i + 1..];
      assert s == s[..i] + [sep] + s[i + 1..];
    }
  }

  /** Splitting a join of pieces free of the separator gives back the pieces. */
  lemma {:induction false} SplitJoin(parts: seq<string>, sep: char)
    requires |parts| >= 1
    requires forall k :: 0 <= k < |parts| ==> sep !in parts[k]
    ensures Split(Join(parts, [sep]), sep) == parts
  {
    if |parts| > 1 {
      var rest := Join(parts[1..], [sep]);
      var s := parts[0] + [sep] + rest;
      assert Join(parts, [sep]) == s;
      assert s[|parts[0]|] == sep;
      assert s[..|parts[0]|] == parts[0];
      var i := IndexOf(s, sep);
      assert i == |parts[0]|;
      assert s[i + 1..] == rest;
      SplitJoin(parts[1..], sep);
    }
  }

  /** The first piece of `s.split(sep)` is the text before the first separator. */
  lemma SplitHead(s: string, sep: char)
    ensures Split(s, sep)[0] == if sep in s then s[..IndexOf(s, sep)] else s
  {
  }

  // ---------------------------------------------------------------------------
  // Decimal rendering of integers (`${n}`, `n.toString()`)
  // ---------------------------------------------------------------------------

  function DigitChar(d: nat): (c: char)
    requires d < 10
    ensures IsDigit(c) && c as int - '0' as int == d
  {
    ('0' as int + d) as char
  }

  predicate AllDigits(s: string) {
    forall i :: 0 <= i < |s| ==> IsDigit(s[i])
  }

  /** The decimal digits of n, most significant first, without leading zeros. */
  function NatToString(n: nat): (s: string)
    ensures |s| >= 1 && AllDigits(s)
    ensures |s| > 1 ==> s[0] != '0'
    ensures n < 10 <==> |s| == 1
  {
    if n < 10 then [DigitChar(n)] else NatToString(n / 10) + [DigitChar(n % 10)]
  }

  /** The value of a string of decimal digits. */
  function ParseNat(s: string): nat
    requires AllDigits(s)
  {
    if s == "" then 0 else ParseNat(s[..|s| - 1]) * 10 + (s[|s| - 1] as int - '0' as int)
  }

  /** Reading back the decimal rendering of n gives n. */
  lemma {:induction false} ParseNatToString(n: nat)
    ensures ParseNat(NatToString(n)) == n
  {
    if n >= 10 {
      var s := NatToString(n);
      assert s[..|s| - 1] == NatToString(n / 10);
      ParseNatToString(n / 10);
    }
  }

  /** `${i}` for an integer i. */
  function IntToString(i: int): (s: string)
    ensures s != "" && (s[0] == '-' <==> i < 0)
    ensures i >= 0 ==> s == NatToString(i)
    ensures i < 0 ==> s == "-" + NatToString(-i)
  {
    if i >= 0 then NatToString(i) else "-" + NatToString(-i)
  }

  /** Different integers are rendered differently. */
  lemma IntToStringInjective(a: int, b: int)
    requires IntToString(a) == IntToString(b)
    ensures a == b
  {
    if a >= 0 && b >= 0 {
      ParseNatToString(a);
      ParseNatToString(b);
    } else if a < 0 && b < 0 {
      assert NatToString(-a) == IntToString(a)[1..];
      ParseNatToString(-a);
      ParseNatToString(-b);
    }
  }

  /** `s.padStart(width, [c])`. */
  function PadStart(s: string, width: nat, c: char): (r: string)
    ensures |r| == if |s| >= width then |s| else width
    ensures s <= r[|r| - |s|..] && r[|r| - |s|..] == s
    ensures forall i :: 0 <= i < |r| - |s| ==> r[i] == c
    decreases width - |s|
  {
    if |s| >= width then s else PadStart([c] + s, width, c)
  }

  // ---------------------------------------------------------------------------
  // Case mapping
  // ---------------------------------------------------------------------------

  /** `toUpperCase` on the ASCII letters; other characters are left alone. */
  function UpperChar(c: char): (u: char)
    ensures IsAsciiLower(c) ==> IsAsciiUpper(u) && u as int == c as int - 32
    ensures !IsAsciiLower(c) ==> u == c
  {
    if IsAsciiLower(c) then (c as int - 32) as char else c
  }

  function ToUpper(s: string): (r: string)
    ensures |r| == |s|
    ensures forall i :: 0 <= i < |s| ==> r[i] == UpperChar(s[i])
  {
    if s == "" then "" else [UpperChar(s[0])] + ToUpper(s[1..])
  }
}
