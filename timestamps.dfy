/** A stand-in for Go's `time.RFC3339` layout over whole seconds: `FormatTS` renders a timestamp
    as signed decimal text and `ParseTS` reads it back. Only the properties the line format relies
    on are used elsewhere: parsing undoes formatting, and the rendering never holds `]` or a line
    break. */
module Timestamps {
  import opened Wrappers

  predicate IsDigit(c: char) {
    '0' <= c <= '9'
  }

  predicate AllDigits(s: string) {
    forall i :: 0 <= i < |s| ==> IsDigit(s[i])
  }

  function DigitChar(d: nat): (c: char)
    requires d < 10
    ensures IsDigit(c)
  {
    ('0' as int + d) as char
  }

  function DigitValue(c: char): (d: nat)
    requires IsDigit(c)
    ensures d < 10 && DigitChar(d) == c
  {
    c as int - '0' as int
  }

  /** Decimal digits of `n`, most significant first, without leading zeros. */
  function FormatNat(n: nat): (s: string)
    ensures |s| > 0 && AllDigits(s)
    decreases n
  {
    if n < 10 then [DigitChar(n)] else FormatNat(n / 10) + [DigitChar(n % 10)]
  }

  /** The value of a non-empty run of decimal digits. */
  function ParseNat(s: string): nat
    requires |s| > 0 && AllDigits(s)
    decreases |s|
  {
    if |s| == 1 then DigitValue(s[0])
    else ParseNat(s[..|s| - 1]) * 10 + DigitValue(s[|s| - 1])
  }

  function FormatTS(t: int): (s: string)
    ensures |s| > 0
    // The alphabet of this decimal stand-in only; an RFC 3339 rendering also holds `T`, `:`, `Z`.
    ensures forall i :: 0 <= i < |s| ==> s[i] == '-' || IsDigit(s[i])
    ensures ']' !in s && '\n' !in s
  {
    if t < 0 then "-" + FormatNat(-t) else FormatNat(t)
  }

  /** `None` for text that is not a timestamp in this rendering. */
  function ParseTS(s: string): (r: Option<int>)
    // As for `FormatTS`, the alphabet is that of the decimal stand-in.
    ensures r.Some? ==> |s| > 0 && forall i :: 0 <= i < |s| ==> s[i] == '-' || IsDigit(s[i])
  {
    if |s| > 1 && s[0] == '-' && AllDigits(s[1..]) then Some(0 - ParseNat(s[1..]) as int)
    else if |s| > 0 && AllDigits(s) then Some(ParseNat(s))
    else None
  }

  lemma {:induction false} ParseFormatNat(n: nat)
    ensures ParseNat(FormatNat(n)) == n
    decreases n
  {
    if n >= 10 {
      var s := FormatNat(n);
      assert s[..|s| - 1] == FormatNat(n / 10);
      ParseFormatNat(n / 10);
    }
  }

  /** Parsing the rendering of a timestamp gives the timestamp back. */
  lemma ParseFormat(t: int)
    ensures ParseTS(FormatTS(t)) == Some(t)
  {
    if t < 0 {
      assert FormatTS(t)[1..] == FormatNat(-t);
      ParseFormatNat(-t);
    } else {
      ParseFormatNat(t);
    }
  }
}
