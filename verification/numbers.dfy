/**
  Decimal text and numbers: the zero-padded formatting `format!("{:02}", n)`
  used for saved file names, and `str::trim().parse::<u64>()` used for the
  custom session length.
 */
module Numbers {
  import opened Chars
  import opened Optional

  const U64Max: nat := 0xFFFF_FFFF_FFFF_FFFF

  function Pow10(k: nat): (p: nat)
    ensures p >= 1
  {
    if k == 0 then 1 else 10 * Pow10(k - 1)
  }

  function DigitChar(d: nat): (c: char)
    requires d < 10
    ensures IsAsciiDigit(c)
  {
    ['0', '1', '2', '3', '4', '5', '6', '7', '8', '9'][d]
  }

  function DigitValue(c: char): (d: nat)
    requires IsAsciiDigit(c)
    ensures d < 10
    ensures DigitChar(d) == c
  {
    (c as int - '0' as int) as nat
  }

  /** The number a string of ASCII digits denotes (most significant digit first). */
  function DecimalValue(s: string): nat
    requires AllAsciiDigits(s)
    decreases |s|
  {
    if |s| == 0 then 0 else 10 * DecimalValue(s[..|s| - 1]) + DigitValue(s[|s| - 1])
  }

  /** `n` written in decimal without leading zeros (`"0"` for zero), as Rust's `{}` prints an unsigned integer. */
  function ToDecimal(n: nat): (s: string)
    ensures AllAsciiDigits(s)
    ensures 1 <= |s|
    decreases n
  {
    if n < 10 then [DigitChar(n)] else ToDecimal(n / 10) + [DigitChar(n % 10)]
  }

  /** Rust's `{:0w}` for a non-negative integer: left-pad with `'0'` to at least `w` characters. */
  function ZeroPad(n: nat, w: nat): (s: string)
    ensures AllAsciiDigits(s)
    ensures |s| >= w
  {
    var digits := ToDecimal(n);
    if |digits| >= w then digits else seq(w - |digits|, _ => '0') + digits
  }

  lemma {:induction false} DecimalRoundTrip(n: nat)
    ensures DecimalValue(ToDecimal(n)) == n
    decreases n
  {
    if n >= 10 {
      DecimalRoundTrip(n / 10);
      var s := ToDecimal(n);
      assert s[..|s| - 1] == ToDecimal(n / 10);
    }
  }

  lemma {:induction false} LeadingZerosAreIgnored(k: nat, s: string)
    requires AllAsciiDigits(s)
    ensures AllAsciiDigits(seq(k, _ => '0') + s)
    ensures DecimalValue(seq(k, _ => '0') + s) == DecimalValue(s)
    decreases |s|, k
  {
    var z := seq(k, _ => '0');
    if |s| > 0 {
      var t := z + s;
      assert t[..|t| - 1] == z + s[..|s| - 1];
      LeadingZerosAreIgnored(k, s[..|s| - 1]);
    } else if k > 0 {
      assert z + s == z;
      assert z[..k - 1] == seq(k - 1, _ => '0');
      LeadingZerosAreIgnored(k - 1, s);
      assert seq(k - 1, _ => '0') + s == seq(k - 1, _ => '0');
    }
  }

  lemma {:induction false} DecimalWidth(n: nat, w: nat)
    requires n < Pow10(w)
    ensures |ToDecimal(n)| <= w || (n == 0 && w == 0)
    decreases n
  {
    if n >= 10 {
      assert w >= 1;
      DecimalWidth(n / 10, w - 1);
    }
  }

  /** Formatting with `{:0w}` and reading the digits back gives the number again,
      and a number below `10^w` takes exactly `w` characters. */
  lemma ZeroPadRoundTrip(n: nat, w: nat)
    requires n < Pow10(w) && w >= 1
    ensures |ZeroPad(n, w)| == w
    ensures DecimalValue(ZeroPad(n, w)) == n
  {
    DecimalWidth(n, w);
    DecimalRoundTrip(n);
    var digits := ToDecimal(n);
    if |digits| < w {
      LeadingZerosAreIgnored(w - |digits|, digits);
    }
  }

  /** `str::trim_start`, `str::trim_end` and `str::trim`, on the Unicode White_Space set. */
  function TrimStart(s: string): (t: string)
    ensures |t| <= |s| && t == s[|s| - |t|..]
    ensures |t| == 0 || !IsWhitespace(t[0])
    ensures forall i :: 0 <= i < |s| - |t| ==> IsWhitespace(s[i])
    decreases |s|
  {
    if |s| > 0 && IsWhitespace(s[0]) then TrimStart(s[1..]) else s
  }

  function TrimEnd(s: string): (t: string)
    ensures |t| <= |s| && t == s[..|t|]
    ensures |t| == 0 || !IsWhitespace(t[|t| - 1])
    ensures forall i :: |t| <= i < |s| ==> IsWhitespace(s[i])
    decreases |s|
  {
    if |s| > 0 && IsWhitespace(s[|s| - 1]) then
      TrimEnd(s[..|s| - 1])
    else s
  }

  function Trim(s: string): (t: string)
    ensures |t| <= |s|
    ensures |t| == 0 || (!IsWhitespace(t[0]) && !IsWhitespace(t[|t| - 1]))
    ensures |t| == 0 <==> AllWhitespace(s)
  {
    TrimEnd(TrimStart(s))
  }

  /** `<u64 as FromStr>::from_str`: an optional leading `'+'`, then one or more
      ASCII digits, denoting a value that fits in 64 bits; anything else is an error. */
  function ParseU64(s: string): (r: Option<nat>)
    ensures r.Some? ==> r.value <= U64Max
  {
    var digits := if |s| > 0 && s[0] == '+' then s[1..] else s;
    if |digits| == 0 || !AllAsciiDigits(digits) then None
    else if DecimalValue(digits) > U64Max then None
    else Some(DecimalValue(digits))
  }

  /** `s.trim().parse::<u64>()`. */
  function ParseTrimmedU64(s: string): (r: Option<nat>)
    ensures r.Some? ==> r.value <= U64Max
    ensures AllWhitespace(s) ==> r.None?
  {
    ParseU64(Trim(s))
  }

  lemma TrimOfDigits(s: string)
    requires AllAsciiDigits(s)
    ensures Trim(s) == s
  {
    if |s| > 0 {
      DigitIsPlain(s[0]);
      DigitIsPlain(s[|s| - 1]);
    }
  }

  /** On a buffer of ASCII digits the parse succeeds exactly when the buffer is
      non-empty and its value fits in 64 bits, and then yields that value. */
  lemma ParseDigits(s: string)
    requires AllAsciiDigits(s)
    ensures ParseTrimmedU64(s).Some? <==> |s| > 0 && DecimalValue(s) <= U64Max
    ensures ParseTrimmedU64(s).Some? ==> ParseTrimmedU64(s).value == DecimalValue(s)
  {
    TrimOfDigits(s);
    assert ParseTrimmedU64(s) == ParseU64(s);
    if |s| > 0 {
      assert IsAsciiDigit(s[0]) && s[0] != '+';
    }
  }

  /** Printing a 64-bit value and parsing it back is the identity. */
  lemma ParseToDecimal(n: nat)
    requires n <= U64Max
    ensures ParseTrimmedU64(ToDecimal(n)) == Some(n)
  {
    DecimalRoundTrip(n);
    ParseDigits(ToDecimal(n));
  }
}
