/** Character classes and string helpers of the .NET runtime that the core relies on:
    whitespace, `string.Trim`, `string.IsNullOrWhiteSpace`, `string.Join`, decimal
    formatting of integers and `int.Parse`. */
module Text {
  import opened Wrappers

  /** `Environment.NewLine` on Windows, appended by `StringBuilder.AppendLine`. */
  const NewLine: string := "\r\n"

  const MinInt32: int := -0x8000_0000
  const MaxInt32: int := 0x7FFF_FFFF

  type i32 = x: int | -0x8000_0000 <= x <= 0x7FFF_FFFF

  /** `char.IsWhiteSpace`; it is also the class the regex token `\s` matches
      (`[\f\n\r\t\v\x85\p{Z}]`). */
  predicate IsWhiteSpace(c: char) {
    || ('\t' <= c <= '\r') || c == ' ' || c == '\U{85}' || c == '\U{A0}' || c == '\U{1680}'
    || ('\U{2000}' <= c <= '\U{200A}') || c == '\U{2028}' || c == '\U{2029}'
    || c == '\U{202F}' || c == '\U{205F}' || c == '\U{3000}'
  }

  /** The white space `int.Parse` skips around a number (`NumberStyles.Integer`). */
  predicate IsParseWhite(c: char) {
    ('\t' <= c <= '\r') || c == ' '
  }

  /** An ASCII decimal digit. */
  predicate IsDigit(c: char) {
    '0' <= c <= '9'
  }

  predicate All(s: string, p: char -> bool) {
    forall k :: 0 <= k < |s| ==> p(s[k])
  }

  predicate AllWhiteSpace(s: string) {
    All(s, IsWhiteSpace)
  }

  predicate AllDigits(s: string) {
    All(s, IsDigit)
  }

  /** `string.IsNullOrWhiteSpace`. */
  predicate IsNullOrWhiteSpace(s: Option<string>) {
    s.None? || AllWhiteSpace(s.value)
  }

  /** The length of the longest prefix of `s` whose characters satisfy `p`. */
  function Leading(s: string, p: char -> bool): (n: nat)
    ensures n <= |s|
    ensures forall k :: 0 <= k < n ==> p(s[k])
    ensures n < |s| ==> !p(s[n])
  {
    if s == [] || !p(s[0]) then 0 else 1 + Leading(s[1..], p)
  }

  /** The length of the longest suffix of `s` whose characters satisfy `p`. */
  function Trailing(s: string, p: char -> bool): (n: nat)
    ensures n <= |s|
    ensures forall k :: |s| - n <= k < |s| ==> p(s[k])
    ensures n < |s| ==> !p(s[|s| - n - 1])
  {
    if s == [] || !p(s[|s| - 1]) then 0 else 1 + Trailing(s[..|s| - 1], p)
  }

  /** `s` without its longest prefix and suffix of characters satisfying `p`. */
  function Strip(s: string, p: char -> bool): (r: string)
    ensures |r| <= |s|
    ensures r == [] || (!p(r[0]) && !p(r[|r| - 1]))
    ensures exists a :: 0 <= a <= |s| - |r| && r == s[a..a + |r|]
                        && All(s[..a], p) && All(s[a + |r|..], p)
  {
    var a := Leading(s, p);
    if a == |s| then
      assert s[..|s|] == s;
      assert s[|s|..] == [];
      []
    else
      var b := Trailing(s, p);
      assert !p(s[a]);
      var r := s[a..|s| - b];
      assert r == s[a..a + |r|];
      assert All(s[..a], p);
      assert All(s[a + |r|..], p);
      r
  }

  /** `string.Trim()`: removes leading and trailing white space. */
  function Trim(s: string): (r: string)
    ensures |r| <= |s|
    ensures r == [] || (!IsWhiteSpace(r[0]) && !IsWhiteSpace(r[|r| - 1]))
    ensures exists a :: 0 <= a <= |s| - |r| && r == s[a..a + |r|]
                        && AllWhiteSpace(s[..a]) && AllWhiteSpace(s[a + |r|..])
  {
    Strip(s, IsWhiteSpace)
  }

  /** Stripping a string whose ends do not satisfy `p` leaves it unchanged. */
  lemma StripNoOp(s: string, p: char -> bool)
    requires s == [] || (!p(s[0]) && !p(s[|s| - 1]))
    ensures Strip(s, p) == s
  {
    if s != [] {
      assert Leading(s, p) == 0;
      assert Trailing(s, p) == 0;
      assert s[0..|s|] == s;
    }
  }

  /** Trimming twice is trimming once. */
  lemma TrimIdempotent(s: string)
    ensures Trim(Trim(s)) == Trim(s)
  {
    StripNoOp(Trim(s), IsWhiteSpace);
  }

  /** `string.Join(sep, parts)`. */
  function Join(sep: string, parts: seq<string>): string
  {
    if |parts| == 0 then ""
    else if |parts| == 1 then parts[0]
    else parts[0] + sep + Join(sep, parts[1..])
  }

  function DigitValue(c: char): nat
    requires IsDigit(c)
  {
    (c as int) - ('0' as int)
  }

  function DigitChar(d: nat): (c: char)
    requires d < 10
    ensures IsDigit(c) && DigitValue(c) == d
  {
    (('0' as int) + d) as char
  }

  /** The value of a run of decimal digits, most significant first. */
  function DigitsValue(s: string): nat
    requires AllDigits(s)
  {
    if s == [] then 0 else 10 * DigitsValue(s[..|s| - 1]) + DigitValue(s[|s| - 1])
  }

  /** Decimal formatting of a natural number, as `int.ToString()` does for n >= 0. */
  function NatToString(n: nat): (r: string)
    ensures |r| >= 1 && AllDigits(r)
    ensures DigitsValue(r) == n
  {
    if n < 10 then
      [DigitChar(n)]
    else
      var prefix := NatToString(n / 10);
      var r := prefix + [DigitChar(n % 10)];
      assert r[..|r| - 1] == prefix;
      r
  }

  /** `int.ToString()`, writing a negative number with the ASCII `-`. */
  function IntToString(n: int): (r: string)
    ensures |r| >= 1
    ensures IsDigit(r[|r| - 1])
    ensures n >= 0 <==> IsDigit(r[0])
  {
    if n < 0 then "-" + NatToString(-n) else NatToString(n)
  }

  /** `int.Parse(s)`: optional white space, an optional sign, one or more ASCII digits,
      optional white space; a value outside the 32-bit range is an overflow. */
  function ParseInt32(s: string): (r: Result<i32, Exception>)
    ensures r.Failure? ==> r.error == FormatError || r.error == OverflowError
  {
    var t := Strip(s, IsParseWhite);
    if t == [] then Failure(FormatError)
    else
      var body := if t[0] == '-' || t[0] == '+' then t[1..] else t;
      if body == [] || !AllDigits(body) then Failure(FormatError)
      else
        var v: int := if t[0] == '-' then -(DigitsValue(body) as int) else DigitsValue(body);
        if MinInt32 <= v <= MaxInt32 then Success(v) else Failure(OverflowError)
  }

  /** On a run of digits, `int.Parse` yields its value, or overflows when the value
      exceeds `int.MaxValue`. */
  lemma ParseDigits(s: string)
    requires |s| >= 1 && AllDigits(s)
    ensures ParseInt32(s) == if DigitsValue(s) <= MaxInt32 then Success(DigitsValue(s))
                             else Failure(OverflowError)
  {
    StripNoOp(s, IsParseWhite);
  }

  /** `int.Parse(n.ToString()) == n` for every 32-bit `n`. */
  lemma ParseFormatRoundTrip(n: i32)
    ensures ParseInt32(IntToString(n)) == Success(n)
  {
    var t := IntToString(n);
    StripNoOp(t, IsParseWhite);
    if n < 0 {
      var m: nat := -(n as int);
      assert t[1..] == NatToString(m);
    }
  }
}
