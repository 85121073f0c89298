/** Character and string helpers with the meaning the JDK and Spring give them:
    decimal rendering of numbers, `String.format("%06d", n)`, `String.trim()`,
    `Character.isWhitespace` and `StringUtils.hasText`. */
module Text {

  import opened Wrappers

  predicate IsDigit(c: char) { '0' <= c <= '9' }

  predicate AllDigits(s: string) { forall i :: 0 <= i < |s| ==> IsDigit(s[i]) }

  function DigitChar(d: nat): (c: char)
    requires d < 10
    ensures IsDigit(c)
  {
    (48 + d) as char
  }

  function DigitValue(c: char): (d: nat)
    requires IsDigit(c)
    ensures d < 10
  {
    (c as int - 48) as nat
  }

  /** The decimal rendering of `n`, most significant digit first, without leading zeros. */
  function NatToDecimal(n: nat): (s: string)
    ensures 1 <= |s| && AllDigits(s)
    decreases n
  {
    if n < 10 then [DigitChar(n)] else NatToDecimal(n / 10) + [DigitChar(n % 10)]
  }

  /** The number a string of decimal digits denotes. */
  function DecimalValue(s: string): nat
    requires AllDigits(s)
    decreases |s|
  {
    if s == [] then 0 else DecimalValue(s[..|s| - 1]) * 10 + DigitValue(s[|s| - 1])
  }

  /** Reading back a rendered number gives the number. */
  lemma {:induction false} DecimalRoundTrip(n: nat)
    ensures DecimalValue(NatToDecimal(n)) == n
    decreases n
  {
    if n >= 10 {
      var s := NatToDecimal(n);
      assert s[..|s| - 1] == NatToDecimal(n / 10);
      DecimalRoundTrip(n / 10);
    }
  }

  /** Distinct numbers render as distinct strings. */
  lemma NatToDecimalInjective(m: nat, n: nat)
    ensures NatToDecimal(m) == NatToDecimal(n) <==> m == n
  {
    if NatToDecimal(m) == NatToDecimal(n) {
      DecimalRoundTrip(m);
      DecimalRoundTrip(n);
    }
  }

  /** Leading zeros do not change the value of a digit string. */
  lemma {:induction false} LeadingZerosIgnored(k: nat, s: string)
    requires AllDigits(s)
    ensures AllDigits(Zeros(k) + s) && DecimalValue(Zeros(k) + s) == DecimalValue(s)
    decreases |s|
  {
    ZerosAreDigits(k);
    if s == [] {
      assert Zeros(k) + s == Zeros(k);
      ZerosValue(k);
    } else {
      var t := Zeros(k) + s;
      assert t[..|t| - 1] == Zeros(k) + s[..|s| - 1];
      LeadingZerosIgnored(k, s[..|s| - 1]);
    }
  }

  function Zeros(k: nat): (z: string)
    ensures |z| == k
  {
    if k == 0 then [] else Zeros(k - 1) + ['0']
  }

  lemma {:induction false} ZerosAreDigits(k: nat)
    ensures AllDigits(Zeros(k))
  {
    if k > 0 { ZerosAreDigits(k - 1); }
  }

  lemma {:induction false} ZerosValue(k: nat)
    ensures AllDigits(Zeros(k)) && DecimalValue(Zeros(k)) == 0
  {
    ZerosAreDigits(k);
    if k > 0 {
      assert Zeros(k)[..k - 1] == Zeros(k - 1);
      ZerosValue(k - 1);
    }
  }

  /** `NatToDecimal(n)` is no longer than `w` digits exactly when `n < 10^w`. */
  function Pow10(w: nat): (p: nat)
    ensures p >= 1
  {
    if w == 0 then 1 else 10 * Pow10(w - 1)
  }

  lemma {:induction false} DecimalLength(n: nat, w: nat)
    requires n < Pow10(w)
    ensures |NatToDecimal(n)| <= w || (n == 0 && w == 0)
    decreases n
  {
    if n >= 10 {
      assert w >= 1;
      DecimalLength(n / 10, w - 1);
    }
  }

  /** `String.format("%0<width>d", n)` for a non-negative `n`: the decimal digits of `n`,
      left-padded with zeros to `width` characters (longer numbers are not cut). */
  function ZeroPadded(n: nat, width: nat): (s: string)
  {
    var digits := NatToDecimal(n);
    if |digits| >= width then digits else Zeros(width - |digits|) + digits
  }

  /** A zero-padded number below `10^width` has exactly `width` digits and reads back as itself. */
  lemma ZeroPaddedRoundTrip(n: nat, width: nat)
    requires 1 <= width && n < Pow10(width)
    ensures |ZeroPadded(n, width)| == width
    ensures AllDigits(ZeroPadded(n, width))
    ensures DecimalValue(ZeroPadded(n, width)) == n
  {
    DecimalLength(n, width);
    DecimalRoundTrip(n);
    PaddedDigits(NatToDecimal(n), width, n);
  }

  /** Padding a digit string of at most `width` digits to `width` keeps its value. */
  lemma PaddedDigits(digits: string, width: nat, value: nat)
    requires AllDigits(digits) && |digits| <= width && DecimalValue(digits) == value
    ensures var p := if |digits| >= width then digits else Zeros(width - |digits|) + digits;
            |p| == width && AllDigits(p) && DecimalValue(p) == value
  {
    if |digits| < width {
      LeadingZerosIgnored(width - |digits|, digits);
    }
  }

  /** `Character.isWhitespace`: Unicode space separators other than the no-break spaces, and
      the ASCII controls HT, LF, VT, FF, CR and FS, GS, RS, US. */
  predicate IsJavaWhitespace(c: char)
  {
    c == ' ' || ('\t' <= c <= '\r') || ('\U{1C}' <= c <= '\U{1F}')
    || c == '\U{1680}' || ('\U{2000}' <= c <= '\U{2006}') || ('\U{2008}' <= c <= '\U{200A}')
    || c == '\U{2028}' || c == '\U{2029}' || c == '\U{205F}' || c == '\U{3000}'
  }

  /** Spring's `StringUtils.hasText`: non-null and holding a character that is not whitespace. */
  predicate HasText(s: Option<string>)
  {
    s.Some? && exists i :: 0 <= i < |s.value| && !IsJavaWhitespace(s.value[i])
  }

  /** `String.trim()` drops every character up to U+0020 from both ends. */
  predicate IsTrimmable(c: char) { c <= ' ' }

  function TrimStart(s: string): (r: string)
    ensures |r| <= |s| && r == s[|s| - |r|..]
    ensures r != [] ==> !IsTrimmable(r[0])
    ensures forall i :: 0 <= i < |s| - |r| ==> IsTrimmable(s[i])
  {
    if s != [] && IsTrimmable(s[0]) then TrimStart(s[1..]) else s
  }

  function TrimEnd(s: string): (r: string)
    ensures |r| <= |s| && r == s[..|r|]
    ensures r != [] ==> !IsTrimmable(r[|r| - 1])
    ensures forall i :: |r| <= i < |s| ==> IsTrimmable(s[i])
  {
    if s != [] && IsTrimmable(s[|s| - 1]) then TrimEnd(s[..|s| - 1]) else s
  }

  function Trim(s: string): string
  {
    TrimEnd(TrimStart(s))
  }

  /** `s[i..j]` is what is left of `s` once trimmable characters are cut off both ends. */
  predicate IsCoreSlice(s: string, i: int, j: int)
  {
    && 0 <= i <= j <= |s|
    && (forall k :: 0 <= k < i ==> IsTrimmable(s[k]))
    && (forall k :: j <= k < |s| ==> IsTrimmable(s[k]))
  }

  /** `trim()` returns the slice of `s` between its first and last non-trimmable character:
      everything cut off is whitespace or control, and the ends it keeps are not. */
  lemma TrimIsCore(s: string)
    ensures exists i, j :: IsCoreSlice(s, i, j) && Trim(s) == s[i..j]
    ensures Trim(s) != [] ==> !IsTrimmable(Trim(s)[0]) && !IsTrimmable(Trim(s)[|Trim(s)| - 1])
  {
    var a := TrimStart(s);
    var i := |s| - |a|;
    var j := i + |TrimEnd(a)|;
    TrimEndOfSuffix(s, i);
    assert IsCoreSlice(s, i, j);
  }

  /** Trimming the end of the suffix `s[i..]` keeps `s[i..j]` and cuts only trimmable
      characters of `s`. */
  lemma TrimEndOfSuffix(s: string, i: nat)
    requires i <= |s|
    ensures var j := i + |TrimEnd(s[i..])|;
            && TrimEnd(s[i..]) == s[i..j]
            && forall k :: j <= k < |s| ==> IsTrimmable(s[k])
  {
    var a := s[i..];
    var j := i + |TrimEnd(a)|;
    forall k | j <= k < |s| ensures IsTrimmable(s[k]) {
      assert s[k] == a[k - i];
    }
  }

  /** A string with no character up to U+0020 at either end is left alone by `trim()`. */
  lemma TrimKeepsTrimmed(s: string)
    requires s == [] || (!IsTrimmable(s[0]) && !IsTrimmable(s[|s| - 1]))
    ensures Trim(s) == s
  {
  }

  lemma DigitsAreTrimmed(s: string)
    requires AllDigits(s)
    ensures Trim(s) == s
  {
    TrimKeepsTrimmed(s);
  }

  /** `String.startsWith`. */
  predicate StartsWith(s: string, prefix: string)
  {
    |prefix| <= |s| && s[..|prefix|] == prefix
  }
}
