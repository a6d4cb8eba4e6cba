/**
  The pieces of JavaScript string semantics the controllers rely on:
  `String.prototype.startsWith`, `String.prototype.split` with a one-character
  separator, and the global `parseInt` called without a radix
  (ECMAScript, section 19.2.5 "parseInt ( string, radix )").
*/
module JsText {
  import opened Wrappers

  /** `s.startsWith(prefix)` */
  predicate StartsWith(s: string, prefix: string) {
    prefix <= s
  }

  // ---------------------------------------------------------------------------
  // split
  // ---------------------------------------------------------------------------

  /** `s.split(sep)` for a one-character separator: every occurrence of `sep`
      cuts, and empty pieces are kept (`"".split(" ")` is `[""]`). */
  function Split(s: string, sep: char): (parts: seq<string>)
    ensures |parts| >= 1
    ensures forall k :: 0 <= k < |parts| ==> sep !in parts[k]
    decreases |s|
  {
    if |s| == 0 then [""]
    else
      var rest := Split(s[1..], sep);
      if s[0] == sep then [""] + rest
      else [[s[0]] + rest[0]] + rest[1..]
  }

  /** `parts.join(sep)`: the inverse of `Split`. */
  function Join(parts: seq<string>, sep: char): string
    requires |parts| >= 1
    decreases |parts|
  {
    if |parts| == 1 then parts[0] else parts[0] + [sep] + Join(parts[1..], sep)
  }

  /** Splitting loses nothing: the pieces joined by the separator give back the string. */
  lemma {:induction false} JoinSplit(s: string, sep: char)
    ensures Join(Split(s, sep), sep) == s
    decreases |s|
  {
    if |s| > 0 {
      JoinSplit(s[1..], sep);
      var rest := Split(s[1..], sep);
      if s[0] == sep {
        assert ([""] + rest)[1..] == rest;
        assert s == [sep] + s[1..];
      } else {
        var parts := [[s[0]] + rest[0]] + rest[1..];
        assert parts[1..] == rest[1..];
        if |rest| == 1 {
          assert s == [s[0]] + rest[0];
        } else {
          assert Join(rest, sep) == rest[0] + [sep] + Join(rest[1..], sep);
          assert s == [s[0]] + s[1..];
        }
      }
    }
  }

  /** A string without the separator splits into itself alone. */
  lemma {:induction false} SplitNoSeparator(t: string, sep: char)
    requires sep !in t
    ensures Split(t, sep) == [t]
    decreases |t|
  {
    if |t| > 0 {
      assert sep !in t[1..] by {
        forall k | 0 <= k < |t| - 1 ensures t[1..][k] != sep { assert t[1..][k] == t[k + 1]; }
      }
      SplitNoSeparator(t[1..], sep);
      assert t == [t[0]] + t[1..];
    }
  }

  /** A leading separator-free word followed by the separator becomes the first piece. */
  lemma {:induction false} SplitAfterWord(w: string, sep: char, t: string)
    requires sep !in w
    ensures Split(w + [sep] + t, sep) == [w] + Split(t, sep)
    decreases |w|
  {
    var s := w + [sep] + t;
    if |w| == 0 {
      assert s[1..] == t;
    } else {
      assert s[1..] == w[1..] + [sep] + t;
      assert sep !in w[1..] by {
        forall k | 0 <= k < |w| - 1 ensures w[1..][k] != sep { assert w[1..][k] == w[k + 1]; }
      }
      SplitAfterWord(w[1..], sep, t);
      assert w == [w[0]] + w[1..];
    }
  }

  // ---------------------------------------------------------------------------
  // parseInt
  // ---------------------------------------------------------------------------

  /** StrWhiteSpaceChar: the white space and line terminators that `parseInt` skips. */
  predicate IsJsWhiteSpace(c: char) {
    || c == '\t' || c == '\n' || c == '\U{000B}' || c == '\U{000C}' || c == '\r'
    || c == ' ' || c == '\U{00A0}' || c == '\U{1680}'
    || ('\U{2000}' <= c <= '\U{200A}')
    || c == '\U{2028}' || c == '\U{2029}' || c == '\U{202F}' || c == '\U{205F}'
    || c == '\U{3000}' || c == '\U{FEFF}'
  }

  /** The string with its leading white space removed. */
  function TrimStart(s: string): string
    decreases |s|
  {
    if |s| > 0 && IsJsWhiteSpace(s[0]) then TrimStart(s[1..]) else s
  }

  /** Trimming removes exactly a run of leading white space: what is left is a
      suffix that does not start with white space, and a string that does not
      start with white space is left alone. */
  lemma {:induction false} TrimStartSkipsWhiteSpace(s: string)
    ensures var t := TrimStart(s);
            && |t| <= |s| && t == s[|s| - |t|..]
            && (forall i :: 0 <= i < |s| - |t| ==> IsJsWhiteSpace(s[i]))
            && (|t| > 0 ==> !IsJsWhiteSpace(t[0]))
    decreases |s|
  {
    if |s| > 0 && IsJsWhiteSpace(s[0]) {
      TrimStartSkipsWhiteSpace(s[1..]);
      var t := TrimStart(s[1..]);
      assert s[1..][|s| - 1 - |t|..] == s[|s| - |t|..];
      forall i | 0 < i < |s| - |t| ensures IsJsWhiteSpace(s[i]) {
        assert s[1..][i - 1] == s[i];
      }
    }
  }

  /** The value of a letter or decimal digit as a digit in radix up to 36; 36 for anything else. */
  function DigitValue(c: char): (v: nat)
    ensures v <= 36
  {
    if '0' <= c <= '9' then c as int - '0' as int
    else if 'a' <= c <= 'z' then c as int - 'a' as int + 10
    else if 'A' <= c <= 'Z' then c as int - 'A' as int + 10
    else 36
  }

  predicate IsDigit(c: char, radix: nat) {
    DigitValue(c) < radix
  }

  /** The longest prefix of `s` made of digits of the radix. */
  function DigitPrefix(s: string, radix: nat): (d: string)
    ensures forall i :: 0 <= i < |d| ==> IsDigit(d[i], radix)
    decreases |s|
  {
    if |s| > 0 && IsDigit(s[0], radix) then [s[0]] + DigitPrefix(s[1..], radix) else []
  }

  /** `DigitPrefix` is a prefix of the string and cannot be extended by a digit. */
  lemma {:induction false} DigitPrefixIsLongest(s: string, radix: nat)
    ensures var d := DigitPrefix(s, radix);
            d <= s && (|d| < |s| ==> !IsDigit(s[|d|], radix))
    decreases |s|
  {
    if |s| > 0 && IsDigit(s[0], radix) {
      DigitPrefixIsLongest(s[1..], radix);
      assert s == [s[0]] + s[1..];
    }
  }

  /** The number that a string of digits denotes, most significant digit first,
      in one of the two radixes `parseInt` without a radix argument reads. */
  function DigitsValue(d: string, radix: nat): nat
    requires radix == 10 || radix == 16
    requires forall i :: 0 <= i < |d| ==> IsDigit(d[i], radix)
    decreases |d|
  {
    if |d| == 0 then 0
    else
      var higher := DigitsValue(d[..|d| - 1], radix);
      (if radix == 16 then 16 * higher else 10 * higher) + DigitValue(d[|d| - 1])
  }

  /** `parseInt(s)`: `None` is `NaN`. White space is skipped, one sign is read,
      a `0x`/`0X` prefix selects radix 16, and the longest run of digits after
      that is the number; trailing characters are ignored. */
  function ParseInt(s: string): Option<int>
  {
    var t := TrimStart(s);
    var u := AfterSign(t);
    var radix := RadixOf(u);
    var d := DigitPrefix(AfterRadixPrefix(u), radix);
    if |d| == 0 then None
    else
      var magnitude: int := DigitsValue(d, radix);
      Some(if IsNegative(t) then -magnitude else magnitude)
  }

  predicate IsNegative(t: string) {
    |t| > 0 && t[0] == '-'
  }

  function AfterSign(t: string): string {
    if |t| > 0 && (t[0] == '-' || t[0] == '+') then t[1..] else t
  }

  predicate HasHexPrefix(u: string) {
    |u| >= 2 && u[0] == '0' && (u[1] == 'x' || u[1] == 'X')
  }

  function RadixOf(u: string): nat {
    if HasHexPrefix(u) then 16 else 10
  }

  function AfterRadixPrefix(u: string): string {
    if HasHexPrefix(u) then u[2..] else u
  }

  // ---------------------------------------------------------------------------
  // The decimal rendering of an id, as a client writes it into a URL
  // ---------------------------------------------------------------------------

  function DigitChar(n: nat): char
    requires n < 10
  {
    ('0' as int + n) as char
  }

  /** `String(n)` for a non-negative integer. */
  function ToDecimal(n: nat): string
    decreases n
  {
    if n < 10 then [DigitChar(n)] else ToDecimal(n / 10) + [DigitChar(n % 10)]
  }

  /** A non-empty string of the characters '0' to '9'. */
  predicate IsDecimal(s: string) {
    |s| > 0 && forall i :: 0 <= i < |s| ==> '0' <= s[i] <= '9'
  }

  /** `String(n)` is a decimal string that denotes `n`. */
  lemma {:induction false} ToDecimalDigits(n: nat)
    ensures IsDecimal(ToDecimal(n))
    ensures forall i :: 0 <= i < |ToDecimal(n)| ==> IsDigit(ToDecimal(n)[i], 10)
    ensures DigitsValue(ToDecimal(n), 10) == n
    decreases n
  {
    if n >= 10 {
      ToDecimalDigits(n / 10);
      var s := ToDecimal(n / 10);
      assert (s + [DigitChar(n % 10)])[..|s|] == s;
    }
  }

  /** A decimal string is its own longest run of radix-10 digits. */
  lemma {:induction false} DecimalDigitPrefix(s: string)
    requires forall i :: 0 <= i < |s| ==> '0' <= s[i] <= '9'
    ensures DigitPrefix(s, 10) == s
    decreases |s|
  {
    if |s| > 0 {
      assert '0' <= s[0] <= '9';
      DecimalDigitPrefix(s[1..]);
      assert s == [s[0]] + s[1..];
    }
  }

  /** How `parseInt` reads a decimal string: no white space to skip, no sign,
      radix 10, and every character a digit. */
  lemma DecimalPieces(s: string)
    requires IsDecimal(s)
    ensures TrimStart(s) == s && !IsNegative(s) && AfterSign(s) == s
    ensures RadixOf(s) == 10 && AfterRadixPrefix(s) == s
  {
  }

  /** `parseInt` reads a decimal string as the number it denotes. */
  lemma ParseIntUnsigned(s: string)
    requires IsDecimal(s)
    requires forall i :: 0 <= i < |s| ==> IsDigit(s[i], 10)
    ensures ParseInt(s) == Some(DigitsValue(s, 10))
  {
    DecimalPieces(s);
    DecimalDigitPrefix(s);
  }

  /** A minus sign before a decimal string negates it. */
  lemma ParseIntNegated(m: string)
    requires |m| > 1 && m[0] == '-' && IsDecimal(m[1..])
    requires forall i :: 0 <= i < |m| - 1 ==> IsDigit(m[1..][i], 10)
    ensures ParseInt(m) == Some(-(DigitsValue(m[1..], 10) as int))
  {
    DecimalPieces(m[1..]);
    DecimalDigitPrefix(m[1..]);
    assert TrimStart(m) == m;
    assert AfterSign(m) == m[1..];
  }

  /** Round trip: `parseInt(String(n)) === n`. */
  lemma ParseIntToDecimal(n: nat)
    ensures ParseInt(ToDecimal(n)) == Some(n)
  {
    ToDecimalDigits(n);
    ParseIntUnsigned(ToDecimal(n));
  }
}
