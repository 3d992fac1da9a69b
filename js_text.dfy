/** The pieces of JavaScript's string and number semantics that the validator, the
    services and the calendar rely on: the white-space set stripped by `trim` and
    matched by `\s`, `String(n)` for integers, and the global `parseInt`. */
module JsText {
  import opened Wrappers

  // ---------------------------------------------------------------------------
  // White space
  // ---------------------------------------------------------------------------

  /** WhiteSpace and LineTerminator code points (ECMA-262, sections 12.2 and 12.3):
      the characters `String.prototype.trim` strips and the regular-expression
      class `\s` matches. */
  predicate IsWhitespace(c: char) {
    || c == '\t' || c == '\n' || c == '\U{000B}' || c == '\U{000C}' || c == '\r'
    || c == ' ' || c == '\U{00A0}' || c == '\U{1680}'
    || ('\U{2000}' <= c <= '\U{200A}')
    || c == '\U{2028}' || c == '\U{2029}' || c == '\U{202F}' || c == '\U{205F}'
    || c == '\U{3000}' || c == '\U{FEFF}'
  }

  predicate AllWhitespace(s: string) {
    forall k | 0 <= k < |s| :: IsWhitespace(s[k])
  }

  /** `s` with its leading white space removed (`trimStart`). */
  function TrimStart(s: string): string {
    if |s| > 0 && IsWhitespace(s[0]) then TrimStart(s[1..]) else s
  }

  /** `trimStart` removes a prefix made only of white space, and stops at the first
      character that is not. */
  lemma {:induction false} TrimStartShape(s: string)
    ensures |TrimStart(s)| <= |s| && TrimStart(s) == s[|s| - |TrimStart(s)|..]
    ensures AllWhitespace(s[..|s| - |TrimStart(s)|])
    ensures TrimStart(s) == [] || !IsWhitespace(TrimStart(s)[0])
  {
    if |s| > 0 && IsWhitespace(s[0]) {
      var r := TrimStart(s[1..]);
      TrimStartShape(s[1..]);
      var cut := s[..|s| - |r|];
      forall k | 0 <= k < |cut| ensures IsWhitespace(cut[k]) {
        if k > 0 {
          assert cut[k] == s[1..][..|s| - 1 - |r|][k - 1];
        }
      }
    }
  }

  /** `s` with its trailing white space removed (`trimEnd`). */
  function TrimEnd(s: string): string {
    if |s| > 0 && IsWhitespace(s[|s| - 1]) then TrimEnd(s[..|s| - 1]) else s
  }

  /** `trimEnd` removes a suffix made only of white space, and stops at the last
      character that is not. */
  lemma {:induction false} TrimEndShape(s: string)
    ensures |TrimEnd(s)| <= |s| && TrimEnd(s) == s[..|TrimEnd(s)|]
    ensures AllWhitespace(s[|TrimEnd(s)|..])
    ensures TrimEnd(s) == [] || !IsWhitespace(TrimEnd(s)[|TrimEnd(s)| - 1])
  {
    if |s| > 0 && IsWhitespace(s[|s| - 1]) {
      var r := TrimEnd(s[..|s| - 1]);
      TrimEndShape(s[..|s| - 1]);
      var cut := s[|r|..];
      forall k | 0 <= k < |cut| ensures IsWhitespace(cut[k]) {
        if k < |s| - 1 - |r| {
          assert cut[k] == s[..|s| - 1][|r|..][k];
        }
      }
    }
  }

  /** `r` is `s[i..j]` and everything cut away on either side is white space. */
  ghost predicate TrimmedAt(s: string, i: int, j: int, r: string) {
    && 0 <= i <= j <= |s|
    && r == s[i..j]
    && AllWhitespace(s[..i]) && AllWhitespace(s[j..])
  }

  lemma WhitespaceConcat(a: string, b: string)
    requires AllWhitespace(a) && AllWhitespace(b)
    ensures AllWhitespace(a + b)
  {
    forall k | 0 <= k < |a + b| ensures IsWhitespace((a + b)[k]) {
      if k >= |a| { assert (a + b)[k] == b[k - |a|]; }
    }
  }

  /** `String.prototype.trim`: the longest slice of `s` that neither starts nor ends
      with white space, cut out of `s` by removing white space only. */
  function Trim(s: string): (r: string)
    ensures exists i, j :: TrimmedAt(s, i, j, r)
    ensures r == [] || (!IsWhitespace(r[0]) && !IsWhitespace(r[|r| - 1]))
    ensures r == [] <==> AllWhitespace(s)
  {
    var t := TrimStart(s);
    var r := TrimEnd(t);
    TrimStartShape(s);
    TrimEndShape(t);
    var i := |s| - |t|;
    assert s[i..i + |r|] == r;
    assert s[i + |r|..] == t[|r|..];
    assert TrimmedAt(s, i, i + |r|, r);
    assert s == s[..i] + t;
    assert r == [] ==> AllWhitespace(s) by {
      if r == [] {
        assert t == t[|r|..];
        WhitespaceConcat(s[..i], t);
      }
    }
    r
  }

  /** How many times `c` occurs in `s`. */
  function Occurrences(s: string, c: char): (n: nat)
    ensures n <= |s|
    ensures n == 0 <==> c !in s
  {
    if s == [] then 0
    else (if s[0] == c then 1 else 0) + Occurrences(s[1..], c)
  }

  lemma {:induction false} OccurrencesConcat(a: string, b: string, c: char)
    ensures Occurrences(a + b, c) == Occurrences(a, c) + Occurrences(b, c)
  {
    if a != [] {
      assert (a + b)[1..] == a[1..] + b;
      assert (a + b)[0] == a[0];
      OccurrencesConcat(a[1..], b, c);
    } else {
      assert a + b == b;
    }
  }

  // ---------------------------------------------------------------------------
  // Digits and decimal text
  // ---------------------------------------------------------------------------

  predicate IsDigit(c: char) { '0' <= c <= '9' }

  predicate IsHexDigit(c: char) {
    IsDigit(c) || ('a' <= c <= 'f') || ('A' <= c <= 'F')
  }

  /** A digit of the radix `parseInt` works in: 10, or 16 after a `0x` prefix. */
  predicate IsRadixDigit(c: char, hex: bool) {
    if hex then IsHexDigit(c) else IsDigit(c)
  }

  function DigitValue(c: char, hex: bool): (d: nat)
    requires IsRadixDigit(c, hex)
    ensures d < (if hex then 16 else 10)
  {
    if IsDigit(c) then (c as int) - ('0' as int)
    else if 'a' <= c <= 'f' then (c as int) - ('a' as int) + 10
    else (c as int) - ('A' as int) + 10
  }

  predicate AllRadixDigits(s: string, hex: bool) {
    forall k | 0 <= k < |s| :: IsRadixDigit(s[k], hex)
  }

  /** The value of a string of digits, most significant first. */
  function DigitsValue(s: string, hex: bool): nat
    requires AllRadixDigits(s, hex)
  {
    if s == [] then 0
    else DigitsValue(s[..|s| - 1], hex) * (if hex then 16 else 10) + DigitValue(s[|s| - 1], hex)
  }

  /** The longest prefix of `s` made of digits of the radix. */
  function DigitsPrefix(s: string, hex: bool): (r: string)
    ensures |r| <= |s| && r == s[..|r|]
    ensures AllRadixDigits(r, hex)
    ensures |r| == |s| || !IsRadixDigit(s[|r|], hex)
  {
    if |s| > 0 && IsRadixDigit(s[0], hex) then
      var r := DigitsPrefix(s[1..], hex);
      assert s[..1 + |r|] == [s[0]] + r;
      [s[0]] + r
    else []
  }

  function DigitChar(d: nat): (c: char)
    requires d < 10
    ensures IsDigit(c) && DigitValue(c, false) == d
  {
    ('0' as int + d) as char
  }

  /** `String(n)` for a non-negative integer: decimal digits without leading zeros. */
  function NatToDecimal(n: nat): (r: string)
    ensures |r| > 0 && AllRadixDigits(r, false)
    ensures |r| > 1 ==> r[0] != '0'
    ensures n < 10 <==> |r| == 1
  {
    if n < 10 then [DigitChar(n)] else NatToDecimal(n / 10) + [DigitChar(n % 10)]
  }

  /** `String(n)` for an integer: a minus sign before the magnitude when negative. */
  function IntToDecimal(n: int): (r: string)
    ensures |r| > 0
    ensures n >= 0 ==> r == NatToDecimal(n)
    ensures n < 0 ==> r == "-" + NatToDecimal(-n)
  {
    if n < 0 then "-" + NatToDecimal(-n) else NatToDecimal(n)
  }

  /** Reading the decimal text of `n` back gives `n`. */
  lemma {:induction false} DecimalValue(n: nat)
    ensures DigitsValue(NatToDecimal(n), false) == n
  {
    if n >= 10 {
      var a := NatToDecimal(n / 10);
      var s := a + [DigitChar(n % 10)];
      assert s[..|s| - 1] == a;
      DecimalValue(n / 10);
    }
  }

  // ---------------------------------------------------------------------------
  // parseInt
  // ---------------------------------------------------------------------------

  /** The global `parseInt(s)` with no radix (ECMA-262, section 19.2.5): skip leading
      white space, take an optional sign, switch to radix 16 after `0x` or `0X`,
      then read the longest run of digits. `None` stands for `NaN` (no digits). */
  function ParseInt(s: string): (r: Option<int>)
  {
    var t := TrimStart(s);
    var negative := |t| > 0 && t[0] == '-';
    var u := if |t| > 0 && (t[0] == '-' || t[0] == '+') then t[1..] else t;
    var hex := |u| >= 2 && u[0] == '0' && (u[1] == 'x' || u[1] == 'X');
    var digits := DigitsPrefix(if hex then u[2..] else u, hex);
    if digits == [] then None
    else
      var magnitude: int := DigitsValue(digits, hex);
      Some(if negative then -magnitude else magnitude)
  }

  lemma AllDigitsPrefix(s: string, hex: bool)
    requires AllRadixDigits(s, hex)
    ensures DigitsPrefix(s, hex) == s
  {
  }

  /** `parseInt` reads back what `String(n)` writes, for every integer `n`. */
  lemma ParseIntDecimal(n: int)
    ensures ParseInt(IntToDecimal(n)) == Some(n)
  {
    var s := IntToDecimal(n);
    var m := if n < 0 then -n else n;
    var d := NatToDecimal(m);
    assert !IsWhitespace(s[0]);
    assert TrimStart(s) == s;
    var u := if n < 0 then s[1..] else s;
    assert u == d;
    assert !(|u| >= 2 && u[0] == '0');
    AllDigitsPrefix(d, false);
    DecimalValue(m);
  }

  /** `parseInt` ignores a leading zero, so zero-padded text reads back too. */
  lemma ParseIntLeadingZero(n: nat)
    requires n < 10
    ensures ParseInt("0" + NatToDecimal(n)) == Some(n)
  {
    var s := "0" + NatToDecimal(n);
    assert s == ['0', DigitChar(n)];
    assert TrimStart(s) == s;
    AllDigitsPrefix(s, false);
    assert s[..1] == ['0'];
    assert DigitsValue(s, false) == DigitsValue(['0'], false) * 10 + n;
  }
}
