/**
 * Python's `int(s)` on a string, as CPython 3.12 reads it: surrounding whitespace
 * is ignored, an optional `+` or `-` sign is accepted, and the digits may be
 * grouped by single underscores that stand between two digits. A string of more
 * than 4300 digits is refused. Any other string is the `ValueError` case, written
 * `None`. Only ASCII digits are modelled.
 */
module IntParse {
  import opened Wrappers
  import opened Ascii

  /**
   * The whitespace `int()` skips around the number. CPython first turns every
   * non-ASCII whitespace character into a space, then skips the C whitespace
   * (space, and tab to carriage return). The ASCII separators 0x1C to 0x1F, which
   * `str.isspace` accepts, are not skipped.
   */
  predicate IsSpace(c: char)
  {
    || c == ' ' || (0x09 <= c as int <= 0x0D)
    || c as int == 0x85 || c as int == 0xA0 || c as int == 0x1680 || (0x2000 <= c as int <= 0x200A)
    || c as int == 0x2028 || c as int == 0x2029 || c as int == 0x202F || c as int == 0x205F
    || c as int == 0x3000
  }

  /** `sys.int_info.default_max_str_digits`: `int()` refuses a decimal string with more digits. */
  const MAX_STR_DIGITS: nat := 4300

  /** `s.strip()` of whitespace on both ends. */
  function Strip(s: string): (r: string)
    ensures |r| <= |s|
    ensures r == [] || (!IsSpace(r[0]) && !IsSpace(r[|r| - 1]))
    ensures forall k :: 0 <= k < |r| ==> r[k] in s
    decreases |s|
  {
    if s != [] && IsSpace(s[0]) then Strip(s[1..])
    else if s != [] && IsSpace(s[|s| - 1]) then Strip(s[..|s| - 1])
    else s
  }

  /** Digits, with single underscores allowed only between two digits. */
  predicate IsDigitString(s: string)
  {
    && |s| > 0
    && IsDigit(s[0])
    && IsDigit(s[|s| - 1])
    && (forall k :: 0 <= k < |s| ==> IsDigit(s[k]) || s[k] == '_')
    && (forall k :: 0 <= k < |s| - 1 ==> s[k] == '_' ==> s[k + 1] != '_')
  }

  function DigitValue(c: char): (d: nat)
    requires IsDigit(c)
    ensures d < 10
  {
    c as int - '0' as int
  }

  function DigitChar(d: nat): (c: char)
    requires d < 10
    ensures IsDigit(c) && DigitValue(c) == d
  {
    ('0' as int + d) as char
  }

  /** The number of digits in a string, underscores and other characters not counted. */
  function DigitCount(s: string): nat
  {
    if s == [] then 0 else DigitCount(s[..|s| - 1]) + (if IsDigit(s[|s| - 1]) then 1 else 0)
  }

  /** A digit string that `int()` accepts: well formed, and not over the digit limit. */
  predicate IsNumeral(s: string)
  {
    IsDigitString(s) && DigitCount(s) <= MAX_STR_DIGITS
  }

  /** The number a digit string denotes, underscores skipped. */
  function DigitsValue(s: string): nat
    requires forall k :: 0 <= k < |s| ==> IsDigit(s[k]) || s[k] == '_'
  {
    if s == [] then 0
    else if s[|s| - 1] == '_' then DigitsValue(s[..|s| - 1])
    else 10 * DigitsValue(s[..|s| - 1]) + DigitValue(s[|s| - 1])
  }

  /** `int(s)`: the integer `s` denotes in base 10, or `None` for `ValueError`. */
  function ParseInt(s: string): (r: Option<int>)
  {
    var t := Strip(s);
    if |t| > 0 && (t[0] == '-' || t[0] == '+') then
      if IsNumeral(t[1..]) then
        var v: int := DigitsValue(t[1..]);
        Some(if t[0] == '-' then -v else v)
      else None
    else if IsNumeral(t) then Some(DigitsValue(t))
    else None
  }

  /** `str(n)` for a natural number: its decimal digits, most significant first. */
  function NatToDecimal(n: nat): (s: string)
    ensures |s| > 0
    ensures forall k :: 0 <= k < |s| ==> IsDigit(s[k])
  {
    if n < 10 then [DigitChar(n)] else NatToDecimal(n / 10) + [DigitChar(n % 10)]
  }

  /**
   * `str(i)` for an integer: a `-` in front of the magnitude of a negative number.
   * (Python refuses to write more than 4300 digits, as `int()` refuses to read them.)
   */
  function IntToDecimal(i: int): (s: string)
  {
    if i < 0 then "-" + NatToDecimal(-i) else NatToDecimal(i)
  }

  lemma {:induction false} NatToDecimalValue(n: nat)
    ensures IsDigitString(NatToDecimal(n))
    ensures DigitsValue(NatToDecimal(n)) == n
  {
    var s := NatToDecimal(n);
    if n >= 10 {
      NatToDecimalValue(n / 10);
      assert s[..|s| - 1] == NatToDecimal(n / 10);
    }
  }

  /** A string of digits only has as many digits as characters. */
  lemma {:induction false} AllDigitsCount(s: string)
    requires forall k :: 0 <= k < |s| ==> IsDigit(s[k])
    ensures DigitCount(s) == |s|
  {
    if s != [] {
      AllDigitsCount(s[..|s| - 1]);
    }
  }

  /** The digits of a concatenation are those of its parts. */
  lemma {:induction false} DigitCountConcat(a: string, b: string)
    ensures DigitCount(a + b) == DigitCount(a) + DigitCount(b)
    decreases |b|
  {
    if b == [] {
      assert a + b == a;
    } else {
      DigitCountConcat(a, b[..|b| - 1]);
      assert (a + b)[..|a + b| - 1] == a + b[..|b| - 1];
    }
  }

  /** Stripping whitespace removes no digit. */
  lemma {:induction false} StripDigitCount(s: string)
    ensures DigitCount(Strip(s)) == DigitCount(s)
    decreases |s|
  {
    if s != [] && IsSpace(s[0]) {
      StripDigitCount(s[1..]);
      DigitCountConcat([s[0]], s[1..]);
      assert [s[0]] + s[1..] == s;
      assert DigitCount([s[0]]) == DigitCount([]);
    } else if s != [] && IsSpace(s[|s| - 1]) {
      StripDigitCount(s[..|s| - 1]);
    }
  }

  /** A leading sign is not a digit, so it does not count. */
  lemma {:induction false} SignDigitCount(t: string)
    requires |t| > 0 && !IsDigit(t[0])
    ensures DigitCount(t) == DigitCount(t[1..])
  {
    DigitCountConcat([t[0]], t[1..]);
    assert [t[0]] + t[1..] == t;
    assert DigitCount([t[0]]) == DigitCount([]);
  }

  /**
   * `int()` accepts a string only when it holds between one and 4300 digits: a
   * longer run of digits raises `ValueError`, however well formed.
   */
  lemma {:induction false} AcceptedDigitCount(s: string)
    ensures ParseInt(s).Some? ==> 1 <= DigitCount(s) <= MAX_STR_DIGITS
  {
    var t := Strip(s);
    StripDigitCount(s);
    if ParseInt(s).Some? {
      if |t| > 0 && (t[0] == '-' || t[0] == '+') {
        SignDigitCount(t);
        assert IsNumeral(t[1..]);
      } else {
        assert IsNumeral(t);
      }
    }
  }

  /** A string with no whitespace at either end is its own strip. */
  lemma StripUnchanged(s: string)
    requires s != [] && !IsSpace(s[0]) && !IsSpace(s[|s| - 1])
    ensures Strip(s) == s
  {
  }

  /** The decimal form of a number within the limit is a numeral `int()` accepts. */
  lemma NatToDecimalNumeral(n: nat)
    requires |NatToDecimal(n)| <= MAX_STR_DIGITS
    ensures IsNumeral(NatToDecimal(n)) && DigitsValue(NatToDecimal(n)) == n
  {
    NatToDecimalValue(n);
    AllDigitsCount(NatToDecimal(n));
  }

  /** `int()` of an unsigned numeral with no surrounding whitespace. */
  lemma ParseUnsigned(d: string)
    requires IsNumeral(d)
    ensures ParseInt(d) == Some(DigitsValue(d))
  {
    StripUnchanged(d);
  }

  /** `int()` of a numeral with a minus sign in front. */
  lemma ParseNegative(d: string)
    requires IsNumeral(d)
    ensures ParseInt("-" + d) == Some(-(DigitsValue(d) as int))
  {
    var s := "-" + d;
    assert s[|s| - 1] == d[|d| - 1];
    StripUnchanged(s);
    assert s[1..] == d;
  }

  /**
   * Every integer `volt` might put in a path is read back by `int()` as itself,
   * up to Python's limit of 4300 digits.
   */
  lemma IntRoundTrip(i: int)
    requires |NatToDecimal(if i < 0 then -i else i)| <= MAX_STR_DIGITS
    ensures ParseInt(IntToDecimal(i)) == Some(i)
  {
    if i < 0 {
      NatToDecimalNumeral(-i);
      ParseNegative(NatToDecimal(-i));
    } else {
      NatToDecimalNumeral(i);
      ParseUnsigned(NatToDecimal(i));
    }
  }

  /** A string holding a letter is never an integer: `int()` raises `ValueError`. */
  lemma {:induction false} LetterIsNotInt(s: string, k: nat)
    requires k < |s| && (IsUpper(s[k]) || IsLower(s[k]))
    ensures ParseInt(s) == None
  {
    var t := Strip(s);
    if ParseInt(s).Some? {
      assert s[k] !in t by {
        forall j | 0 <= j < |t| ensures t[j] != s[k] {
          if |t| > 0 && (t[0] == '-' || t[0] == '+') && j > 0 {
            assert t[1..][j - 1] == t[j];
          }
        }
      }
      StripKeepsInner(s, k);
    }
  }

  /** A character that is not whitespace survives stripping. */
  lemma {:induction false} StripKeepsInner(s: string, k: nat)
    requires k < |s| && !IsSpace(s[k])
    ensures s[k] in Strip(s)
    decreases |s|
  {
    if IsSpace(s[0]) {
      StripKeepsInner(s[1..], k - 1);
    } else if IsSpace(s[|s| - 1]) {
      StripKeepsInner(s[..|s| - 1], k);
    }
  }
}
