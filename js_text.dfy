/** The pieces of JavaScript's string and number built-ins that the application relies on:
    rendering an integer in decimal (`n.toString()`), `Number.parseInt`, `padStart`,
    `trim`, and `split`/`join` on a one-character separator. JavaScript strings are
    modelled as `seq<char>`. */
module JsText {
  import opened Wrappers

  // ----------------------------------------------------------------------------
  // Digits
  // ----------------------------------------------------------------------------

  predicate IsDecimalDigit(c: char) {
    '0' <= c <= '9'
  }

  predicate IsHexDigit(c: char) {
    '0' <= c <= '9' || 'a' <= c <= 'f' || 'A' <= c <= 'F'
  }

  /** The value of a hexadecimal (and so also of a decimal) digit. */
  function HexValue(c: char): (d: nat)
    requires IsHexDigit(c)
    ensures d < 16
    ensures IsDecimalDigit(c) <==> d < 10
  {
    if '0' <= c <= '9' then c as int - '0' as int
    else if 'a' <= c <= 'f' then c as int - 'a' as int + 10
    else c as int - 'A' as int + 10
  }

  function DigitChar(d: nat): (c: char)
    requires d < 10
    ensures IsDecimalDigit(c) && IsHexDigit(c) && HexValue(c) == d
  {
    ('0' as int + d) as char
  }

  predicate AllDigits(s: string, base: nat)
  {
    forall i :: 0 <= i < |s| ==> IsHexDigit(s[i]) && HexValue(s[i]) < base
  }

  /** The number a string of digits denotes in base `base` (most significant digit first). */
  function DigitsValue(s: string, base: nat): nat
    requires AllDigits(s, base)
  {
    if s == [] then 0 else DigitsValue(s[..|s| - 1], base) * base + HexValue(s[|s| - 1])
  }

  /** `n.toString()` for a non-negative integer: its shortest decimal rendering. */
  function NatToString(n: nat): (r: string)
    ensures 1 <= |r|
    ensures AllDigits(r, 10)
    ensures r[0] == '0' ==> n == 0
    ensures |r| == 1 <==> n < 10
    ensures |r| <= 2 <==> n < 100
  {
    if n < 10 then [DigitChar(n)] else NatToString(n / 10) + [DigitChar(n % 10)]
  }

  /** `String(i)` for an integer: a minus sign before the magnitude when negative. */
  function IntToString(i: int): (r: string)
    ensures 1 <= |r|
    ensures (r[0] == '-') <==> i < 0
  {
    if i < 0 then "-" + NatToString(-i) else NatToString(i)
  }

  /** Rendering a number in decimal and reading it back gives the number. */
  lemma {:induction false} DecimalRoundTrip(n: nat)
    ensures DigitsValue(NatToString(n), 10) == n
  {
    if n >= 10 {
      var r := NatToString(n);
      assert r[..|r| - 1] == NatToString(n / 10);
      DecimalRoundTrip(n / 10);
    }
  }

  // ----------------------------------------------------------------------------
  // Whitespace and String.prototype.trim
  // ----------------------------------------------------------------------------

  /** ECMAScript's WhiteSpace and LineTerminator code points, the set `trim` and
      `parseInt` skip. */
  predicate IsJsWhitespace(c: char) {
    c == '\t' || c == '\n' || c == '\U{000B}' || c == '\U{000C}' || c == '\r' || c == ' '
    || c == '\U{00A0}' || c == '\U{1680}' || ('\U{2000}' <= c <= '\U{200A}')
    || c == '\U{2028}' || c == '\U{2029}' || c == '\U{202F}' || c == '\U{205F}'
    || c == '\U{3000}' || c == '\U{FEFF}'
  }

  /** The first index at or after `i` that does not hold whitespace (`|s|` if none). */
  function SkipSpace(s: string, i: nat): (k: nat)
    requires i <= |s|
    ensures i <= k <= |s|
    ensures forall j :: i <= j < k ==> IsJsWhitespace(s[j])
    ensures k < |s| ==> !IsJsWhitespace(s[k])
    decreases |s| - i
  {
    if i < |s| && IsJsWhitespace(s[i]) then SkipSpace(s, i + 1) else i
  }

  /** The end of `s[lo..hi]` once its trailing whitespace is dropped. */
  function SpaceBefore(s: string, lo: nat, hi: nat): (k: nat)
    requires lo <= hi <= |s|
    ensures lo <= k <= hi
    ensures forall j :: k <= j < hi ==> IsJsWhitespace(s[j])
    ensures k > lo ==> !IsJsWhitespace(s[k - 1])
    decreases hi
  {
    if hi > lo && IsJsWhitespace(s[hi - 1]) then SpaceBefore(s, lo, hi - 1) else hi
  }

  /** `s.trim()`: `s` without its leading and trailing whitespace. */
  function Trim(s: string): (r: string)
    ensures |r| <= |s|
    ensures r != [] ==> !IsJsWhitespace(r[0]) && !IsJsWhitespace(r[|r| - 1])
  {
    var start := SkipSpace(s, 0);
    s[start..SpaceBefore(s, start, |s|)]
  }

  /** What `trim` keeps is a piece of `s` that neither starts nor ends with whitespace,
      and everything around it is whitespace. */
  lemma TrimKeepsTheMiddle(s: string)
    ensures exists a, b :: 0 <= a <= b <= |s| && Trim(s) == s[a..b]
              && (forall j :: 0 <= j < a || b <= j < |s| ==> IsJsWhitespace(s[j]))
              && (a < b ==> !IsJsWhitespace(s[a]) && !IsJsWhitespace(s[b - 1]))
  {
    var a := SkipSpace(s, 0);
    var b := SpaceBefore(s, a, |s|);
    assert Trim(s) == s[a..b];
  }

  /** `s.trim()` is empty exactly when every character of `s` is whitespace. */
  lemma TrimEmptyIffBlank(s: string)
    ensures Trim(s) == [] <==> forall i :: 0 <= i < |s| ==> IsJsWhitespace(s[i])
  {
    var a := SkipSpace(s, 0);
    var b := SpaceBefore(s, a, |s|);
    assert Trim(s) == s[a..b];
    if forall i :: 0 <= i < |s| ==> IsJsWhitespace(s[i]) {
      assert a == |s|;
    }
  }

  // ----------------------------------------------------------------------------
  // Number.parseInt(s) with no radix
  // ----------------------------------------------------------------------------

  /** Every character of `s[i..k]` is a digit of base `base`. */
  predicate DigitsBetween(s: string, i: nat, k: nat, base: nat)
    requires i <= k <= |s|
  {
    forall j :: i <= j < k ==> IsHexDigit(s[j]) && HexValue(s[j]) < base
  }

  /** The end of the run of digits of base `base` that starts at `i`. */
  function DigitsEnd(s: string, i: nat, base: nat): (k: nat)
    requires i <= |s|
    ensures i <= k <= |s| && DigitsBetween(s, i, k, base)
    ensures k < |s| ==> !(IsHexDigit(s[k]) && HexValue(s[k]) < base)
    decreases |s| - i
  {
    if i < |s| && IsHexDigit(s[i]) && HexValue(s[i]) < base then DigitsEnd(s, i + 1, base) else i
  }

  /** `Number.parseInt(s)`: skip leading whitespace, take an optional sign, read a
      hexadecimal number after `0x`/`0X` and a decimal one otherwise, and stop at the
      first character that is not a digit. `None` is `NaN` (no digit at all). */
  function ParseInt(s: string): (r: Option<int>)
    ensures var i := SkipSpace(s, 0);
            var j := if i < |s| && (s[i] == '-' || s[i] == '+') then i + 1 else i;
            r.Some? ==> j < |s| && IsDecimalDigit(s[j])
    ensures r.Some? && r.value < 0 ==> SkipSpace(s, 0) < |s| && s[SkipSpace(s, 0)] == '-'
  {
    var i := SkipSpace(s, 0);
    if i < |s| && s[i] == '-' then
      match ParseMagnitude(s, i + 1)
      case None => None
      case Some(m) => Some(-(m as int))
    else if i < |s| && s[i] == '+' then ParseMagnitude(s, i + 1)
    else ParseMagnitude(s, i)
  }

  /** The unsigned part of `parseInt`, read from index `i`: a `0x`/`0X` prefix selects
      base 16. */
  function ParseMagnitude(s: string, i: nat): (r: Option<nat>)
    requires i <= |s|
    ensures r.Some? ==> i < |s| && IsDecimalDigit(s[i])
  {
    if i + 2 <= |s| && s[i] == '0' && (s[i + 1] == 'x' || s[i + 1] == 'X') then ParseDigits(s, i + 2, 16)
    else ParseDigits(s, i, 10)
  }

  /** The number the digits from index `i` on denote, or `None` when there is no digit
      at `i`. */
  function ParseDigits(s: string, i: nat, base: nat): (r: Option<nat>)
    requires i <= |s|
    ensures r.Some? ==> i < |s| && IsHexDigit(s[i]) && HexValue(s[i]) < base
  {
    var k := DigitsEnd(s, i, base);
    if k == i then None
    else
      assert AllDigits(s[i..k], base) by {
        forall j | 0 <= j < k - i ensures IsHexDigit(s[i..k][j]) && HexValue(s[i..k][j]) < base {
          assert s[i..k][j] == s[i + j];
        }
      }
      Some(DigitsValue(s[i..k], base))
  }

  /** `Number.parseInt(s) || 0`: `NaN` (and `-0`) become 0. */
  function ParseIntOrZero(s: string): (n: int)
    ensures ParseInt(s) == None ==> n == 0
    ensures ParseInt(s).Some? ==> n == ParseInt(s).value
    ensures s != [] && AllDigits(s, 10) ==> n == DigitsValue(s, 10)
    ensures (forall i :: 0 <= i < |s| ==> !IsDecimalDigit(s[i])) ==> n == 0
  {
    assert s != [] && AllDigits(s, 10) ==> ParseInt(s) == Some(DigitsValue(s, 10)) by {
      if s != [] && AllDigits(s, 10) {
        ParseIntOfDigits(s);
      }
    }
    assert (forall i :: 0 <= i < |s| ==> !IsDecimalDigit(s[i])) ==> ParseInt(s) == None by {
      if forall i :: 0 <= i < |s| ==> !IsDecimalDigit(s[i]) {
        ParseIntNoDigits(s);
      }
    }
    match ParseInt(s)
    case None => 0
    case Some(v) => v
  }

  /** Reading back the decimal rendering of a number gives the number, so the field
      value an `<input type="number">` shows parses back to itself. */
  lemma ParseIntOfDecimal(n: nat)
    ensures ParseInt(NatToString(n)) == Some(n)
  {
    ParseIntOfDigits(NatToString(n));
    DecimalRoundTrip(n);
  }

  /** A non-empty string of decimal digits parses to the number it denotes. */
  lemma ParseIntOfDigits(r: string)
    requires r != [] && AllDigits(r, 10)
    ensures ParseInt(r) == Some(DigitsValue(r, 10))
  {
    assert !IsJsWhitespace(r[0]) && r[0] != '-' && r[0] != '+';
    assert SkipSpace(r, 0) == 0;
    assert ParseMagnitude(r, 0) == ParseDigits(r, 0, 10) by {
      if |r| >= 2 {
        assert IsDecimalDigit(r[1]);
      }
    }
    DigitsRunToTheEnd(r, 0, 10);
    assert r[0..|r|] == r;
  }

  /** A run of digits that reaches the end of the string ends there. */
  lemma {:induction false} DigitsRunToTheEnd(s: string, i: nat, base: nat)
    requires i <= |s| && forall j :: i <= j < |s| ==> IsHexDigit(s[j]) && HexValue(s[j]) < base
    ensures DigitsEnd(s, i, base) == |s|
    decreases |s| - i
  {
    if i < |s| {
      DigitsRunToTheEnd(s, i + 1, base);
    }
  }

  /** `Number.parseInt(String(i))` is `i` for every integer, negative ones included. */
  lemma IntRoundTrip(i: int)
    ensures ParseInt(IntToString(i)) == Some(i)
  {
    if i < 0 {
      var n: nat := -i;
      var m := NatToString(n);
      assert IntToString(i) == "-" + m;
      NegativeDigits(m);
      DecimalRoundTrip(n);
    } else {
      assert IntToString(i) == NatToString(i);
      ParseIntOfDecimal(i);
    }
  }

  /** A minus sign followed by decimal digits parses to the negated number. */
  lemma NegativeDigits(m: string)
    requires m != [] && AllDigits(m, 10)
    ensures ParseInt("-" + m) == Some(-(DigitsValue(m, 10) as int))
  {
    var r := "-" + m;
    assert r[0] == '-' && !IsJsWhitespace(r[0]);
    assert SkipSpace(r, 0) == 0;
    assert r[1..] == m;
    if |r| >= 3 {
      assert r[2] == m[1] && IsDecimalDigit(r[2]);
    }
    assert ParseMagnitude(r, 1) == ParseDigits(r, 1, 10);
    DigitsToTheEnd(r, 1);
    assert ParseMagnitude(r, 1) == Some(DigitsValue(m, 10));
    assert ParseInt(r) == match ParseMagnitude(r, 1) case None => None case Some(v) => Some(-(v as int));
  }

  /** Decimal digits from `i` to the end of `s` are read as the number they denote. */
  lemma DigitsToTheEnd(s: string, i: nat)
    requires i < |s| && AllDigits(s[i..], 10)
    ensures ParseDigits(s, i, 10) == Some(DigitsValue(s[i..], 10))
  {
    forall j | i <= j < |s| ensures IsHexDigit(s[j]) && HexValue(s[j]) < 10 {
      assert s[j] == s[i..][j - i];
    }
    DigitsRunToTheEnd(s, i, 10);
    assert s[i..|s|] == s[i..];
  }

  /** Text with no digit where the number should begin is `NaN`. */
  lemma ParseIntNoDigits(s: string)
    requires forall i :: 0 <= i < |s| ==> !IsDecimalDigit(s[i])
    ensures ParseInt(s) == None
  {
    var i := SkipSpace(s, 0);
    var j := if i < |s| && (s[i] == '-' || s[i] == '+') then i + 1 else i;
    assert ParseMagnitude(s, j) == ParseDigits(s, j, 10);
    assert DigitsEnd(s, j, 10) == j;
  }

  // ----------------------------------------------------------------------------
  // String.prototype.padStart
  // ----------------------------------------------------------------------------

  /** `s.padStart(width, fill)` for a one-character `fill`. */
  function PadStart(s: string, width: nat, fill: char): (r: string)
    ensures |r| == if |s| < width then width else |s|
    ensures r[|r| - |s|..] == s
    ensures forall i :: 0 <= i < |r| - |s| ==> r[i] == fill
  {
    if |s| < width then seq(width - |s|, _ => fill) + s else s
  }

  // ----------------------------------------------------------------------------
  // split and join on one character
  // ----------------------------------------------------------------------------

  /** The number of occurrences of `c` in `s`. */
  function Count(s: string, c: char): nat {
    if s == [] then 0 else (if s[0] == c then 1 else 0) + Count(s[1..], c)
  }

  /** `s.split(sep)` for a one-character separator: the pieces between the separators,
      empty pieces included; `"".split(sep)` is `[""]`. */
  function Split(s: string, sep: char): (parts: seq<string>)
    ensures |parts| >= 1
    ensures forall k :: 0 <= k < |parts| ==> sep !in parts[k]
  {
    if s == [] then [""]
    else
      var rest := Split(s[1..], sep);
      if s[0] == sep then [""] + rest else [[s[0]] + rest[0]] + rest[1..]
  }

  /** `parts.join(sep)`: the parts with `sep` between neighbours, no separator at the
      ends; the empty list gives the empty string. */
  function Join(parts: seq<string>, sep: string): (r: string)
    ensures parts != [] ==> |parts[0]| <= |r| && r[..|parts[0]|] == parts[0]
  {
    if parts == [] then ""
    else if |parts| == 1 then parts[0]
    else parts[0] + sep + Join(parts[1..], sep)
  }

  /** `split` gives one more piece than there are separators. */
  lemma {:induction false} SplitCount(s: string, sep: char)
    ensures |Split(s, sep)| == Count(s, sep) + 1
  {
    if s != [] {
      SplitCount(s[1..], sep);
    }
  }

  /** Joining the pieces of a split with the same separator restores the string. */
  lemma {:induction false} JoinSplit(s: string, sep: char)
    ensures Join(Split(s, sep), [sep]) == s
  {
    if s != [] {
      var rest := Split(s[1..], sep);
      JoinSplit(s[1..], sep);
      if s[0] == sep {
        assert Split(s, sep) == [""] + rest;
      } else {
        var parts := Split(s, sep);
        assert parts == [[s[0]] + rest[0]] + rest[1..];
        if |rest| == 1 {
          assert Join(parts, [sep]) == [s[0]] + rest[0];
        } else {
          assert parts[1..] == rest[1..];
          assert Join(rest, [sep]) == rest[0] + [sep] + Join(rest[1..], [sep]);
        }
      }
    }
  }

  /** A string without the separator splits into itself alone. */
  lemma {:induction false} SplitWithoutSeparator(s: string, sep: char)
    requires sep !in s
    ensures Split(s, sep) == [s]
  {
    if s != [] {
      assert s[0] != sep && sep !in s[1..];
      SplitWithoutSeparator(s[1..], sep);
      assert [s[0]] + s[1..] == s;
    }
  }

  /** Joining never leaves a separator at the end: the result ends with the last part. */
  lemma {:induction false} JoinEndsWithLast(parts: seq<string>, sep: string)
    requires |parts| >= 1
    ensures |Join(parts, sep)| >= |parts[|parts| - 1]|
    ensures var j := Join(parts, sep); j[|j| - |parts[|parts| - 1]|..] == parts[|parts| - 1]
  {
    if |parts| > 1 {
      JoinEndsWithLast(parts[1..], sep);
    }
  }

  /** Every character of a piece of a split comes from the string. */
  lemma {:induction false} SplitPiecesFromString(s: string, sep: char)
    ensures forall k, x :: 0 <= k < |Split(s, sep)| && x in Split(s, sep)[k] ==> x in s
  {
    if s != [] {
      SplitPiecesFromString(s[1..], sep);
      var rest := Split(s[1..], sep);
      forall k, x | 0 <= k < |Split(s, sep)| && x in Split(s, sep)[k] ensures x in s {
        if s[0] == sep {
          assert Split(s, sep)[k] == if k == 0 then "" else rest[k - 1];
        } else if k == 0 {
          assert x == s[0] || x in rest[0];
        } else {
          assert Split(s, sep)[k] == rest[k];
        }
        assert s == [s[0]] + s[1..];
      }
    }
  }

  /** Splitting a join on the separator gives back the parts, when no part contains it. */
  lemma {:induction false} SplitJoin(parts: seq<string>, sep: char)
    requires |parts| >= 1
    requires forall k :: 0 <= k < |parts| ==> sep !in parts[k]
    ensures Split(Join(parts, [sep]), sep) == parts
  {
    if |parts| == 1 {
      SplitWithoutSeparator(parts[0], sep);
    } else {
      SplitJoin(parts[1..], sep);
      SplitAfterPiece(parts[0], Join(parts[1..], [sep]), sep);
      assert [parts[0]] + parts[1..] == parts;
    }
  }

  /** Splitting `a + sep + b`, with no separator in `a`, gives `a` and then the pieces of `b`. */
  lemma {:induction false} SplitAfterPiece(a: string, b: string, sep: char)
    requires sep !in a
    ensures Split(a + [sep] + b, sep) == [a] + Split(b, sep)
  {
    if a != [] {
      assert (a + [sep] + b)[1..] == a[1..] + [sep] + b;
      SplitAfterPiece(a[1..], b, sep);
      assert [a[0]] + a[1..] == a;
    } else {
      assert (a + [sep] + b)[1..] == b;
    }
  }
}
