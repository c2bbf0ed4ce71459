/** The text form of a C# `int` (System.Int32): `int.ToString()` as used by
    `FileStorage.Save(string, int)` and `int.Parse` as used by
    `FileStorage.Load(string, int)`, with the invariant culture's signs. */
module IntText {
  import opened Wrappers

  const MinInt32: int := -0x8000_0000
  const MaxInt32: int := 0x7FFF_FFFF

  /** A C# `int`. */
  type Int32 = x: int | MinInt32 <= x <= MaxInt32

  /** The two exceptions `int.Parse` throws on a string it rejects. */
  datatype ParseError =
    | FormatError    // System.FormatException: not an optionally signed run of digits
    | OverflowError  // System.OverflowException: well-formed, but outside the Int32 range

  predicate IsDigit(c: char) { '0' <= c <= '9' }

  predicate AllDigits(s: string) { forall i :: 0 <= i < |s| ==> IsDigit(s[i]) }

  /** The white space `int.Parse` skips around the number (NumberStyles.Integer). */
  predicate IsWhite(c: char) { c == ' ' || '\t' <= c <= '\r' }

  function DigitChar(d: nat): (c: char)
    requires d < 10
    ensures IsDigit(c)
  {
    (d + '0' as int) as char
  }

  function DigitValue(c: char): nat
    requires IsDigit(c)
  {
    c as int - '0' as int
  }

  /** The decimal digits of `n`, most significant first, without leading zeros. */
  function NatDigits(n: nat): (s: string)
    ensures |s| > 0 && AllDigits(s)
    ensures s[0] == '0' <==> n == 0
    ensures n == 0 ==> s == "0"
    decreases n
  {
    if n < 10 then [DigitChar(n)] else NatDigits(n / 10) + [DigitChar(n % 10)]
  }

  /** The number a run of decimal digits denotes. */
  function DigitsValue(s: string): nat
    requires AllDigits(s)
  {
    if s == [] then 0 else 10 * DigitsValue(s[..|s| - 1]) + DigitValue(s[|s| - 1])
  }

  /** `n.ToString()`: a leading '-' exactly for negative numbers, then the
      canonical digits of the magnitude (no leading zeros, no "-0"). */
  function IntToString(n: Int32): (s: string)
    ensures |s| > 0
    ensures s[0] == '-' <==> n < 0
    ensures var digits := if n < 0 then s[1..] else s;
      digits != [] && AllDigits(digits) && (digits[0] == '0' ==> digits == "0" && n == 0)
  {
    var m: int := n;
    if m < 0 then "-" + NatDigits(-m) else NatDigits(m)
  }

  /** `s` without its leading white space. */
  function TrimStart(s: string): (r: string)
    ensures |r| <= |s| && r == s[|s| - |r|..]
    ensures r != [] ==> !IsWhite(r[0])
    ensures forall i :: 0 <= i < |s| - |r| ==> IsWhite(s[i])
  {
    if s != [] && IsWhite(s[0]) then TrimStart(s[1..]) else s
  }

  /** `s` without its trailing white space. */
  function TrimEnd(s: string): (r: string)
    ensures |r| <= |s| && r == s[..|r|]
    ensures r != [] ==> !IsWhite(r[|r| - 1])
    ensures forall i :: |r| <= i < |s| ==> IsWhite(s[i])
  {
    if s != [] && IsWhite(s[|s| - 1]) then TrimEnd(s[..|s| - 1]) else s
  }

  /** `int.Parse(s)`: optional white space, an optional '+' or '-', one or
      more decimal digits, optional white space; out-of-range values overflow.
      A string without any digit is always rejected as malformed. */
  function ParseInt(s: string): (r: Result<Int32, ParseError>)
    ensures (forall i :: 0 <= i < |s| ==> !IsDigit(s[i])) ==> r == Failure(FormatError)
  {
    var t := TrimEnd(TrimStart(s));
    var signed := t != [] && (t[0] == '-' || t[0] == '+');
    var digits := if signed then t[1..] else t;
    if digits == [] || !AllDigits(digits) then
      Failure(FormatError)
    else
      var magnitude: int := DigitsValue(digits);
      var v: int := if signed && t[0] == '-' then -magnitude else magnitude;
      if MinInt32 <= v <= MaxInt32 then Success(v) else Failure(OverflowError)
  }

  lemma {:induction false} DigitsValueOfNatDigits(n: nat)
    ensures DigitsValue(NatDigits(n)) == n
    decreases n
  {
    if n >= 10 {
      var s := NatDigits(n);
      assert s[..|s| - 1] == NatDigits(n / 10);
      DigitsValueOfNatDigits(n / 10);
    }
  }

  /** A string that starts and ends with a non-white character is its own trim. */
  lemma TrimNothing(s: string)
    requires s != [] && !IsWhite(s[0]) && !IsWhite(s[|s| - 1])
    ensures TrimEnd(TrimStart(s)) == s
  {
  }

  /** Saving an int and loading it back gives the same int:
      `int.Parse(n.ToString()) == n` for every Int32 `n`. */
  lemma IntRoundTrip(n: Int32)
    ensures ParseInt(IntToString(n)) == Success(n)
  {
    var s := IntToString(n);
    var m: int := n;
    var mag: nat := if m < 0 then -m else m;
    assert IsDigit(s[|s| - 1]);
    TrimNothing(s);
    assert s == if m < 0 then "-" + NatDigits(mag) else NatDigits(mag);
    if m < 0 {
      assert s[1..] == NatDigits(mag);
    }
    DigitsValueOfNatDigits(mag);
  }

  /** One character that is neither a digit, white space nor a sign makes the
      whole string malformed ("12abc", "3.5", "1e3"): `int.Parse` never
      returns the number in front of it. */
  lemma ParseIntRejectsStray(s: string, i: nat)
    requires i < |s| && !IsDigit(s[i]) && !IsWhite(s[i]) && s[i] != '+' && s[i] != '-'
    ensures ParseInt(s) == Failure(FormatError)
  {
    // Trimming drops only white space, so the stray character survives into
    // the text after the optional sign, which is then not all digits.
    var t := TrimEnd(TrimStart(s));
    assert t[i - (|s| - |TrimStart(s)|)] == s[i];
  }

  /** The digits of a number above Int32.MaxValue make `int.Parse` overflow. */
  lemma ParseIntOverflows(n: nat)
    requires n > MaxInt32
    ensures ParseInt(NatDigits(n)) == Failure(OverflowError)
  {
    var s := NatDigits(n);
    assert IsDigit(s[0]) && IsDigit(s[|s| - 1]);
    TrimNothing(s);
    assert !(s[0] == '-' || s[0] == '+');
    DigitsValueOfNatDigits(n);
    assert DigitsValue(s) > MaxInt32;
  }
}
