/**
 String helpers shared by the model: the small part of JavaScript's string
 library the salon application relies on (`toLowerCase`, `startsWith`,
 `includes`, `trim`, `padStart`, `localeCompare`, decimal rendering of
 numbers), each written over `seq<char>`.
 */
module Text {

  // ---------------------------------------------------------------------------
  // Case folding (ASCII only)
  // ---------------------------------------------------------------------------

  predicate IsUpper(c: char) {
    'A' <= c <= 'Z'
  }

  /** `toLowerCase` on one character, restricted to the ASCII letters. */
  function LowerChar(c: char): (r: char)
    ensures !IsUpper(r)
    ensures !IsUpper(c) ==> r == c
    ensures IsUpper(c) ==> r as int == c as int + 32
  {
    if IsUpper(c) then (c as int + 32) as char else c
  }

  /** `s.toLowerCase()`, restricted to the ASCII letters. */
  function Lower(s: string): (r: string)
    ensures |r| == |s|
    ensures forall i :: 0 <= i < |s| ==> r[i] == LowerChar(s[i])
    ensures forall i :: 0 <= i < |r| ==> !IsUpper(r[i])
    ensures forall i :: 0 <= i < |s| && !IsUpper(s[i]) ==> r[i] == s[i]
    ensures forall i :: 0 <= i < |s| && IsUpper(s[i]) ==> r[i] as int == s[i] as int + 32
  {
    seq(|s|, i requires 0 <= i < |s| => LowerChar(s[i]))
  }

  /** Lowering a lowered text changes nothing. */
  lemma LowerIdempotent(s: string)
    ensures Lower(Lower(s)) == Lower(s)
  {
  }

  /** `a.toLowerCase() === b.toLowerCase()` */
  predicate EqualsIgnoreCase(a: string, b: string) {
    Lower(a) == Lower(b)
  }

  // ---------------------------------------------------------------------------
  // Prefixes and substrings
  // ---------------------------------------------------------------------------

  /** `s.startsWith(p)` */
  predicate StartsWith(s: string, p: string): (r: bool)
    ensures r <==> |p| <= |s| && forall i :: 0 <= i < |p| ==> s[i] == p[i]
    ensures r ==> s == p + s[|p|..]
  {
    if |p| <= |s| && s[..|p|] == p then
      assert s == s[..|p|] + s[|p|..];
      true
    else
      assert |p| <= |s| ==> exists i :: 0 <= i < |p| && s[i] != p[i] by {
        if |p| <= |s| {
          assert s[..|p|] != p;
          var i :| 0 <= i < |p| && s[..|p|][i] != p[i];
          assert s[i] != p[i];
        }
      }
      false
  }

  /** `sub` occurs in `s` at position `i`. */
  predicate OccursAt(s: string, sub: string, i: int) {
    0 <= i && i + |sub| <= |s| && s[i..i + |sub|] == sub
  }

  /** `s.includes(sub)`, computed by scanning the start positions left to right. */
  function Includes(s: string, sub: string): (r: bool)
    ensures r <==> exists i :: OccursAt(s, sub, i)
    decreases |s|
  {
    if StartsWith(s, sub) then
      assert OccursAt(s, sub, 0);
      true
    else if |s| == 0 then
      assert forall i :: !OccursAt(s, sub, i);
      false
    else
      var rest := Includes(s[1..], sub);
      assert forall i :: OccursAt(s[1..], sub, i) <==> OccursAt(s, sub, i + 1) by {
        forall i ensures OccursAt(s[1..], sub, i) <==> OccursAt(s, sub, i + 1) {
          if 0 <= i && i + |sub| <= |s| - 1 {
            assert s[1..][i..i + |sub|] == s[i + 1..i + 1 + |sub|];
          }
        }
      }
      assert !OccursAt(s, sub, 0);
      assert (exists i :: OccursAt(s, sub, i)) ==> exists i :: OccursAt(s[1..], sub, i) by {
        if exists i :: OccursAt(s, sub, i) {
          var i :| OccursAt(s, sub, i);
          assert i != 0;
          assert OccursAt(s[1..], sub, i - 1);
        }
      }
      rest
  }

  // ---------------------------------------------------------------------------
  // trim()
  // ---------------------------------------------------------------------------

  /**
   The characters `String.prototype.trim` removes: the WhiteSpace and
   LineTerminator productions of ECMAScript (tab, vertical tab, form feed,
   space, no-break space, the byte order mark, the Unicode space separators,
   line feed, carriage return, line and paragraph separators).
   */
  predicate IsWhitespace(c: char) {
    || c == '\t' || c == '\n' || c == '\U{000B}' || c == '\U{000C}' || c == '\r'
    || c == ' ' || c == '\U{00A0}' || c == '\U{1680}'
    || ('\U{2000}' <= c <= '\U{200A}')
    || c == '\U{2028}' || c == '\U{2029}' || c == '\U{202F}' || c == '\U{205F}'
    || c == '\U{3000}' || c == '\U{FEFF}'
  }

  predicate AllWhitespace(s: string) {
    forall i :: 0 <= i < |s| ==> IsWhitespace(s[i])
  }

  /** The number of whitespace characters `trimStart` removes. */
  function LeadingBlanks(s: string): (n: nat)
    ensures n <= |s|
    ensures forall i :: 0 <= i < n ==> IsWhitespace(s[i])
    ensures n < |s| ==> !IsWhitespace(s[n])
    decreases |s|
  {
    if |s| > 0 && IsWhitespace(s[0]) then
      var n := LeadingBlanks(s[1..]);
      assert forall i :: 1 <= i < n + 1 ==> s[i] == s[1..][i - 1];
      n + 1
    else 0
  }

  /** The number of whitespace characters `trimEnd` removes. */
  function TrailingBlanks(s: string): (n: nat)
    ensures n <= |s|
    ensures forall i :: |s| - n <= i < |s| ==> IsWhitespace(s[i])
    ensures n < |s| ==> !IsWhitespace(s[|s| - n - 1])
    decreases |s|
  {
    if |s| > 0 && IsWhitespace(s[|s| - 1]) then
      var init := s[..|s| - 1];
      var n := TrailingBlanks(init);
      assert forall i :: |s| - n - 1 <= i < |s| - 1 ==> s[i] == init[i];
      n + 1
    else 0
  }

  /** `s.trim()`: drop the leading and the trailing whitespace. */
  function Trim(s: string): (r: string)
    ensures exists i, j :: (0 <= i <= j <= |s| && r == s[i..j]
      && (forall k :: 0 <= k < i ==> IsWhitespace(s[k]))
      && (forall k :: j <= k < |s| ==> IsWhitespace(s[k])))
    ensures |r| > 0 ==> !IsWhitespace(r[0]) && !IsWhitespace(r[|r| - 1])
  {
    var a := LeadingBlanks(s);
    var t := s[a..];
    var b := TrailingBlanks(t);
    TrimSlice(s, a, b);
    t[..|t| - b]
  }

  /**
   * Cutting `a` blanks off the front and then `b` blanks off the back of the
   * rest leaves the slice `s[a..|s| - b]`, which meets both ensures of `Trim`.
   */
  lemma {:induction false} TrimSlice(s: string, a: nat, b: nat)
    requires a <= |s| && b <= |s| - a
    requires forall k :: 0 <= k < a ==> IsWhitespace(s[k])
    requires a < |s| ==> !IsWhitespace(s[a])
    requires forall i :: |s[a..]| - b <= i < |s[a..]| ==> IsWhitespace(s[a..][i])
    requires b < |s| - a ==> !IsWhitespace(s[a..][|s| - a - b - 1])
    ensures var r := s[a..][..|s| - a - b];
      && (exists i, j :: (0 <= i <= j <= |s| && r == s[i..j]
        && (forall k :: 0 <= k < i ==> IsWhitespace(s[k]))
        && (forall k :: j <= k < |s| ==> IsWhitespace(s[k]))))
      && (|r| > 0 ==> !IsWhitespace(r[0]) && !IsWhitespace(r[|r| - 1]))
  {
    var r := s[a..][..|s| - a - b];
    var j := |s| - b;
    assert r == s[a..j];
    forall k | j <= k < |s| ensures IsWhitespace(s[k]) {
      assert s[k] == s[a..][k - a];
    }
    assert 0 <= a <= j <= |s| && r == s[a..j]
      && (forall k :: 0 <= k < a ==> IsWhitespace(s[k]))
      && (forall k :: j <= k < |s| ==> IsWhitespace(s[k]));
    if |r| > 0 {
      assert r[0] == s[a];
      assert r[|r| - 1] == s[a..][|s| - a - b - 1];
    }
  }

  /** Lowering never turns a non-blank character into a blank one or back. */
  lemma LowerKeepsWhitespace(c: char)
    ensures IsWhitespace(LowerChar(c)) <==> IsWhitespace(c)
  {
  }

  /** Two strings equal ignoring case are blank together. */
  lemma {:induction false} AllWhitespaceIgnoresCase(a: string, b: string)
    requires EqualsIgnoreCase(a, b)
    ensures AllWhitespace(a) <==> AllWhitespace(b)
  {
    forall i | 0 <= i < |a| ensures IsWhitespace(a[i]) <==> IsWhitespace(b[i]) {
      assert Lower(a)[i] == Lower(b)[i];
      LowerKeepsWhitespace(a[i]);
      LowerKeepsWhitespace(b[i]);
    }
  }

  /** A text trims to "" exactly when every character of it is whitespace. */
  lemma {:induction false} TrimEmptyIffAllWhitespace(s: string)
    ensures Trim(s) == "" <==> AllWhitespace(s)
  {
    var k := LeadingBlanks(s);
    var t := s[k..];
    var m := TrailingBlanks(t);
    if k < |s| {
      // the first non-blank character survives both trims
      assert t[0] == s[k] && !IsWhitespace(t[0]);
      assert m < |t|;
      assert Trim(s)[0] == t[0];
    }
  }

  // ---------------------------------------------------------------------------
  // Lexicographic order (`localeCompare` on same-shape digit strings)
  // ---------------------------------------------------------------------------

  /** `a.localeCompare(b) <= 0`, taken as lexicographic order on Unicode scalar values. */
  predicate LexLe(a: string, b: string)
    decreases |a|
  {
    if |a| == 0 then true
    else if |b| == 0 then false
    else if a[0] < b[0] then true
    else if a[0] > b[0] then false
    else LexLe(a[1..], b[1..])
  }

  lemma {:induction false} LexLeReflexive(a: string)
    ensures LexLe(a, a)
    decreases |a|
  {
    if |a| > 0 {
      LexLeReflexive(a[1..]);
    }
  }

  lemma {:induction false} LexLeTotal(a: string, b: string)
    ensures LexLe(a, b) || LexLe(b, a)
    decreases |a|
  {
    if |a| > 0 && |b| > 0 && a[0] == b[0] {
      LexLeTotal(a[1..], b[1..]);
    }
  }

  lemma {:induction false} LexLeAntisymmetric(a: string, b: string)
    requires LexLe(a, b) && LexLe(b, a)
    ensures a == b
    decreases |a|
  {
    if |a| > 0 && |b| > 0 {
      LexLeAntisymmetric(a[1..], b[1..]);
      assert a == [a[0]] + a[1..];
      assert b == [b[0]] + b[1..];
    }
  }

  lemma {:induction false} LexLeTransitive(a: string, b: string, c: string)
    requires LexLe(a, b) && LexLe(b, c)
    ensures LexLe(a, c)
    decreases |a|
  {
    if |a| > 0 && |b| > 0 && |c| > 0 && a[0] == b[0] && b[0] == c[0] {
      LexLeTransitive(a[1..], b[1..], c[1..]);
    }
  }

  // ---------------------------------------------------------------------------
  // Decimal numerals
  // ---------------------------------------------------------------------------

  predicate IsDigit(c: char) {
    '0' <= c <= '9'
  }

  predicate AllDigits(s: string) {
    forall i :: 0 <= i < |s| ==> IsDigit(s[i])
  }

  function DigitChar(d: nat): (c: char)
    requires d < 10
    ensures IsDigit(c)
  {
    ('0' as int + d) as char
  }

  function DigitValue(c: char): (d: nat)
    requires IsDigit(c)
    ensures d < 10 && DigitChar(d) == c
  {
    (c as int - '0' as int)
  }

  /** `String(n)` for a non-negative integer: no leading zeros. */
  function Decimal(n: nat): (r: string)
    ensures |r| > 0 && AllDigits(r)
    ensures |r| > 1 ==> r[0] != '0'
  {
    if n < 10 then [DigitChar(n)]
    else Decimal(n / 10) + [DigitChar(n % 10)]
  }

  /** `Number(s)` for a non-empty string of decimal digits. */
  function ParseDecimal(s: string): nat
    requires AllDigits(s)
  {
    if |s| == 0 then 0
    else ParseDecimal(s[..|s| - 1]) * 10 + DigitValue(s[|s| - 1])
  }

  lemma {:induction false} DecimalRoundTrip(n: nat)
    ensures ParseDecimal(Decimal(n)) == n
  {
    if n >= 10 {
      var s := Decimal(n);
      assert s[..|s| - 1] == Decimal(n / 10);
      DecimalRoundTrip(n / 10);
    }
  }

  /** Leading zeros do not change the value of a numeral. */
  lemma {:induction false} ParseDecimalLeadingZero(s: string)
    requires AllDigits(s)
    ensures AllDigits("0" + s) && ParseDecimal("0" + s) == ParseDecimal(s)
    decreases |s|
  {
    if |s| > 0 {
      var t := "0" + s;
      assert t[..|t| - 1] == "0" + s[..|s| - 1];
      ParseDecimalLeadingZero(s[..|s| - 1]);
    }
  }

  /** `s.padStart(width, '0')` */
  function PadZero(s: string, width: nat): (r: string)
    ensures |r| == if |s| < width then width else |s|
    ensures r[|r| - |s|..] == s
    ensures forall i :: 0 <= i < |r| - |s| ==> r[i] == '0'
  {
    if |s| < width then seq(width - |s|, _ => '0') + s else s
  }

  /** `String(n).padStart(2, '0')` for a value below 100: two digits that read back as `n`. */
  lemma {:induction false} TwoDigitRoundTrip(n: nat)
    requires n < 100
    ensures |PadZero(Decimal(n), 2)| == 2
    ensures AllDigits(PadZero(Decimal(n), 2))
    ensures ParseDecimal(PadZero(Decimal(n), 2)) == n
  {
    DecimalRoundTrip(n);
    if n < 10 {
      ParseDecimalLeadingZero(Decimal(n));
      assert PadZero(Decimal(n), 2) == "0" + Decimal(n);
    } else {
      assert Decimal(n) == Decimal(n / 10) + [DigitChar(n % 10)];
      assert PadZero(Decimal(n), 2) == Decimal(n);
    }
  }

  /** `String(n).padStart(2, '0')` for a value below 100. */
  function TwoDigits(n: nat): (r: string)
    requires n < 100
    ensures |r| == 2 && AllDigits(r)
    ensures ParseDecimal(r) == n
  {
    TwoDigitRoundTrip(n);
    PadZero(Decimal(n), 2)
  }
}
