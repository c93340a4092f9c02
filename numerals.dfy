/** Python's `int()` applied to a string, in base 10, and the decimal
    rendering of an integer that it reads back. */
module Numerals {
  import opened Wrappers
  import opened Text

  predicate IsDigit(c: char) {
    '0' <= c <= '9'
  }

  predicate AllDigits(s: string) {
    forall i :: 0 <= i < |s| ==> IsDigit(s[i])
  }

  /** The value of a run of decimal digits, most significant digit first. */
  function DigitsValue(ds: string): nat
    requires AllDigits(ds)
  {
    if ds == [] then 0
    else DigitsValue(ds[..|ds| - 1]) * 10 + (ds[|ds| - 1] as int - '0' as int)
  }

  /** The digits of a literal as `int()` accepts them: ASCII digits, where
      an underscore may stand only between two digits. */
  predicate WellGrouped(body: string) {
    && |body| > 0 && IsDigit(body[0]) && IsDigit(body[|body| - 1])
    && (forall i :: 0 <= i < |body| ==> IsDigit(body[i]) || body[i] == '_')
    && !Contains(body, "__")
  }

  /** `body` without its underscores. */
  function DropUnderscores(body: string): (ds: string)
    requires forall i :: 0 <= i < |body| ==> IsDigit(body[i]) || body[i] == '_'
    ensures AllDigits(ds)
    ensures AllDigits(body) ==> ds == body
  {
    if body == [] then []
    else (if body[0] == '_' then [] else [body[0]]) + DropUnderscores(body[1..])
  }

  /** The white space `int()` ignores around a numeral. CPython keeps every
      ASCII character as it is and skips only the ASCII white space,
      and it turns every other `str.isspace` character into a space first;
      so the information separators U+001C to U+001F, white space for
      `str.isspace`, are not white space for `int()`. */
  predicate IntSpace(c: char) {
    IsSpace(c) && !(0x1C <= c as int <= 0x1F)
  }

  /** `s` without the leading `int()` white space. */
  function TrimIntSpaceStart(s: string): string
    decreases |s|
  {
    if s != [] && IntSpace(s[0]) then TrimIntSpaceStart(s[1..]) else s
  }

  /** `s` without the trailing `int()` white space. */
  function TrimIntSpaceEnd(s: string): string
    decreases |s|
  {
    if s != [] && IntSpace(s[|s| - 1]) then TrimIntSpaceEnd(s[..|s| - 1]) else s
  }

  /** `s` without the `int()` white space around it. */
  function StripIntSpace(s: string): string {
    TrimIntSpaceEnd(TrimIntSpaceStart(s))
  }

  /** Python's `int(s)`: surrounding white space is ignored, and what is
      left must be a numeral. */
  function ParseInt(s: string): Option<int> {
    ParseNumeral(StripIntSpace(s))
  }

  /** A numeral: an optional sign followed by a well-grouped run of digits;
      anything else is a ValueError (`None`). */
  function ParseNumeral(t: string): Option<int> {
    if |t| > 0 && (t[0] == '+' || t[0] == '-') then
      var body := t[1..];
      if WellGrouped(body) then
        var v: int := DigitsValue(DropUnderscores(body));
        Some(if t[0] == '-' then -v else v)
      else None
    else if WellGrouped(t) then Some(DigitsValue(DropUnderscores(t)))
    else None
  }

  function DigitChar(d: nat): (c: char)
    requires d < 10
    ensures IsDigit(c) && c as int - '0' as int == d
  {
    ('0' as int + d) as char
  }

  /** The decimal digits of `n`, without leading zeros. */
  function NatToString(n: nat): (s: string)
    ensures s != [] && AllDigits(s)
  {
    if n < 10 then [DigitChar(n)] else NatToString(n / 10) + [DigitChar(n % 10)]
  }

  /** Python's `str(n)`. */
  function IntToString(n: int): (s: string)
    ensures s != [] && IsDigit(s[|s| - 1])
    ensures forall i :: 0 <= i < |s| ==> IsDigit(s[i]) || (i == 0 && s[i] == '-')
  {
    if n < 0 then "-" + NatToString(-n) else NatToString(n)
  }

  lemma {:induction false} NatToStringValue(n: nat)
    ensures DigitsValue(NatToString(n)) == n
  {
    if n >= 10 {
      var s := NatToString(n);
      NatToStringValue(n / 10);
      assert s[..|s| - 1] == NatToString(n / 10);
    }
  }

  /** Rendering an integer and reading it back with `int()` gives it back. */
  lemma ParseIntRoundTrip(n: int)
    ensures ParseInt(IntToString(n)) == Some(n)
  {
    var digits := NatToString(if n < 0 then -n else n);
    assert IntToString(n) == if n < 0 then "-" + digits else digits;
    ParseDigits(digits);
    NatToStringValue(if n < 0 then -n else n);
  }

  /** A plain run of digits, with or without a minus sign, reads as its value. */
  lemma ParseDigits(digits: string)
    requires digits != [] && AllDigits(digits)
    ensures ParseInt(digits) == Some(DigitsValue(digits))
    ensures ParseInt("-" + digits) == Some(-(DigitsValue(digits) as int))
  {
    DigitsWellGrouped(digits);
    StripUnchanged(digits);
    ParseNegative(digits);
  }

  lemma ParseNegative(digits: string)
    requires WellGrouped(digits) && AllDigits(digits)
    ensures ParseInt("-" + digits) == Some(-(DigitsValue(digits) as int))
  {
    var s := "-" + digits;
    assert s[0] == '-' && s[|s| - 1] == digits[|digits| - 1];
    StripUnchanged(s);
    assert s[1..] == digits;
  }

  lemma DigitsWellGrouped(digits: string)
    requires digits != [] && AllDigits(digits)
    ensures WellGrouped(digits)
  {
    if Contains(digits, "__") {
      var i :| 0 <= i <= |digits| && OccursAt(digits, "__", i);
      assert digits[i] == digits[i..i + 2][0];
    }
  }

  lemma StripUnchanged(s: string)
    requires s != [] && !IntSpace(s[0]) && !IntSpace(s[|s| - 1])
    ensures StripIntSpace(s) == s
  {
    assert TrimIntSpaceStart(s) == s;
    assert TrimIntSpaceEnd(s) == s;
  }

  /** The rendering of an integer holds no white space. */
  lemma IntToStringSpaceFree(n: int)
    ensures SpaceFree(IntToString(n))
  {
  }
}
